/** The dictionary routes `/api/words`: query-parameter defaults and
    limits, the pagination flags of the listing, the per-word results and
    summary of `/validate`, and the lines of the txt and csv exports. Query
    parameters are strings, or `None` when absent; the store is injected. */
module WordsRoute {
  import opened Wrappers
  import opened Text
  import opened Pagination
  import opened WordModel
  import HistoryController

  /** `parseInt(param) || fallback`: an absent parameter, NaN and 0 all give
      the fallback. */
  function IntOr(param: Option<string>, fallback: int): (r: int)
    ensures param.Some? && ParseInt(param.value).Some? && ParseInt(param.value).value != 0 ==>
      r == ParseInt(param.value).value
    ensures param.None? || ParseInt(param.value).None? || ParseInt(param.value) == Some(0) ==> r == fallback
  {
    var parsed := if param.None? then None else ParseInt(param.value);
    if parsed.None? || parsed.value == 0 then fallback else parsed.value
  }

  // ---------------------------------------------------------------------
  // GET /

  const MaxListLimit: int := 1000
  const LimitTooLarge := "Limit juda katta (maksimal 1000)"

  /** The listing's parameters once read: page and limit, the window's
      start, the sort direction (1 or -1). */
  datatype ListParams = ListParams(page: int, limit: int, skip: int, sortOrder: int)

  /** `parseInt(page) || 1` and `parseInt(limit) || 50`, `sortOrder` -1
      only for "desc"; a limit over 1000 is refused before any query. */
  function ReadListParams(page: Option<string>, limit: Option<string>, sortOrder: Option<string>): (r: Result<ListParams>)
    ensures r.Err? <==> IntOr(limit, 50) > MaxListLimit
    ensures r.Err? ==> r.error == LimitTooLarge
    ensures r.Ok? ==> r.value.page == IntOr(page, 1) && r.value.limit == IntOr(limit, 50)
    ensures r.Ok? ==> r.value.page != 0 && r.value.limit != 0 && r.value.limit <= MaxListLimit
    ensures r.Ok? ==> r.value.skip == (r.value.page - 1) * r.value.limit
    ensures r.Ok? ==> (r.value.sortOrder == -1 <==> sortOrder == Some("desc"))
  {
    var p := IntOr(page, 1);
    var l := IntOr(limit, 50);
    var order := if sortOrder == Some("desc") then -1 else 1;
    if l > MaxListLimit then Err(LimitTooLarge)
    else Ok(ListParams(p, l, (p - 1) * l, order))
  }

  /** `sortOrder === 1 ? "asc" : "desc"`, the direction echoed back. */
  function SortOrderName(order: int): string {
    if order == 1 then "asc" else "desc"
  }

  /** The listing's `pagination` object for `totalCount` matching words. */
  datatype WordsPage = WordsPage(currentPage: int, totalPages: Number, totalCount: nat, limit: int, hasNext: bool, hasPrev: bool)

  function ListPagination(params: ListParams, totalCount: nat): WordsPage {
    var totalPages := CeilDiv(totalCount, Some(params.limit));
    WordsPage(params.page, totalPages, totalCount, params.limit,
              Less(Some(params.page), totalPages), params.page > 1)
  }

  /** Without parameters the first 50 words in ascending order are listed,
      and the order is echoed as "asc". */
  lemma {:induction false} ListDefaults()
    ensures ReadListParams(None, None, None) == Ok(ListParams(1, 50, 0, 1))
    ensures SortOrderName(ReadListParams(None, None, None).value.sortOrder) == "asc"
  {
  }

  /** "0" and a non-number fall back to the defaults like an absent value. */
  lemma {:induction false} ZeroAndNaNFallBack()
    ensures ReadListParams(Some("0"), Some("abc"), None) == Ok(ListParams(1, 50, 0, 1))
  {
    ParseIntOfRendering(0, "");
    assert IntToString(0) + "" == "0";
    ParseIntNoDigits();
  }

  /** The echoed order is "desc" exactly when "desc" was asked for; any
      other value, "DESC" included, sorts and echoes ascending. */
  lemma {:induction false} SortOrderEcho(page: Option<string>, limit: Option<string>, sortOrder: Option<string>)
    requires ReadListParams(page, limit, sortOrder).Ok?
    ensures SortOrderName(ReadListParams(page, limit, sortOrder).value.sortOrder) == "desc" <==> sortOrder == Some("desc")
  {
  }

  /** For a page from 1 on and a positive limit, `hasNext` says that words
      remain after this page, and `hasPrev` that the page is not the first. */
  lemma {:induction false} ListFlags(params: ListParams, totalCount: nat)
    requires params.page >= 1 && params.limit > 0
    ensures ListPagination(params, totalCount).hasNext <==> params.page * params.limit < totalCount
    ensures ListPagination(params, totalCount).hasPrev <==> params.page != 1
  {
    HasNextMeansMoreItems(totalCount, params.page, params.limit);
  }

  // ---------------------------------------------------------------------
  // GET /search/:query and GET /random

  const QueryTooShort := "Qidiruv so'zi kamida 2 ta harf bo'lishi kerak"
  const TooManyRandom := "Juda ko'p so'z so'ralgan (maksimal 100)"

  /** The search route's checks: the query (a path segment) must have two
      characters, white space counting; the limit is 20 by default and has
      no cap. */
  function ReadSearchParams(query: string, limit: Option<string>): (r: Result<int>)
    ensures r.Err? <==> |query| < 2
    ensures r.Err? ==> r.error == QueryTooShort
    ensures r.Ok? ==> r.value == IntOr(limit, 20) && r.value != 0
  {
    if query == "" || |query| < 2 then Err(QueryTooShort) else Ok(IntOr(limit, 20))
  }

  /** Unlike the history search, the dictionary search does not trim: two
      spaces are a valid query here and refused there. */
  lemma {:induction false} SearchDoesNotTrim()
    ensures ReadSearchParams("  ", None).Ok?
    ensures HistoryController.SearchGuard(Some("  ")).Some?
  {
    TrimOfSpaces();
  }

  lemma {:induction false} TrimOfSpaces()
    ensures Trim("  ") == ""
  {
    assert FirstNonSpace("  ", 0) == 2;
  }

  /** The random route's count: 10 by default; more than 100 is refused. */
  function ReadRandomCount(count: Option<string>): (r: Result<int>)
    ensures r.Err? <==> IntOr(count, 10) > 100
    ensures r.Err? ==> r.error == TooManyRandom
    ensures r.Ok? ==> r.value == IntOr(count, 10) && r.value != 0
  {
    var c := IntOr(count, 10);
    if c > 100 then Err(TooManyRandom) else Ok(c)
  }

  // ---------------------------------------------------------------------
  // POST /validate

  const WordsRequired := "So'zlar massivi kiritilishi shart"
  const TooManyWords := "Juda ko'p so'z (maksimal 100 ta)"
  const NotAStringError := "So'z string bo'lishi kerak"
  const MaxValidate: nat := 100

  /** What `wordInfo` reports of a found document. */
  datatype WordInfo = WordInfo(wordType: string, trustScore: int, category: Option<string>)

  /** One entry of the results: the value sent, whether it is a dictionary
      word, the found document's details, and an error for a non-string. */
  datatype Validation = Validation(word: Value, isValid: bool, wordInfo: Option<WordInfo>, error: Option<string>)

  /** The entry for one value: a non-string is invalid without a lookup;
      a string is looked up with `findByWord` and no type. */
  function ValidationFor(store: seq<StoredWord>, word: Value): (r: Validation)
    ensures r.word == word
    ensures r.isValid <==> word.Str? && exists i :: 0 <= i < |store| && store[i].word == LowerTrim(word.s)
    ensures r.isValid <==> r.wordInfo.Some?
    ensures !word.Str? ==> r.error == Some(NotAStringError)
    ensures word.Str? ==> r.error.None?
    ensures r.wordInfo.Some? ==>
      var w := FindOne(store, FindByWordQuery(word.s, None)).value;
      r.wordInfo.value == WordInfo(w.wordType, w.trustScore, w.category)
  {
    if !word.Str? then Validation(word, false, None, Some(NotAStringError))
    else
      var found := FindOne(store, FindByWordQuery(word.s, None));
      match found
      case None => Validation(word, false, None, None)
      case Some(w) => Validation(word, true, Some(WordInfo(w.wordType, w.trustScore, w.category)), None)
  }

  /** `results.filter((r) => r.isValid).length` */
  function ValidCount(results: seq<Validation>): (n: nat)
    ensures n <= |results|
  {
    if results == [] then 0
    else ValidCount(results[..|results| - 1]) + (if results[|results| - 1].isValid then 1 else 0)
  }

  /** The reply of `/validate`. */
  datatype ValidateReply =
    | ValidateRejected(error: string)
    | Validated(results: seq<Validation>, total: nat, valid: nat, invalid: int)

  /** `POST /validate`: the guards on `words`, then one entry per value in
      order, then the summary counts. */
  method ValidateWords(store: seq<StoredWord>, words: Value) returns (r: ValidateReply)
    ensures !words.Arr? || words.items == [] <==> r == ValidateRejected(WordsRequired)
    ensures words.Arr? && |words.items| > MaxValidate ==> r == ValidateRejected(TooManyWords)
    ensures r.Validated? <==> words.Arr? && 0 < |words.items| <= MaxValidate
    ensures r.Validated? ==>
      && |r.results| == r.total == |words.items|
      && (forall k :: 0 <= k < |r.results| ==> r.results[k] == ValidationFor(store, words.items[k]))
      && r.valid == ValidCount(r.results)
      && r.valid + r.invalid == r.total
      && r.invalid >= 0
  {
    if !words.Arr? || |words.items| == 0 {
      return ValidateRejected(WordsRequired);
    }
    if |words.items| > MaxValidate {
      return ValidateRejected(TooManyWords);
    }
    var results: seq<Validation> := [];
    for i := 0 to |words.items|
      invariant |results| == i
      invariant forall k :: 0 <= k < i ==> results[k] == ValidationFor(store, words.items[k])
    {
      var word := words.items[i];
      if !word.Str? {
        results := results + [Validation(word, false, None, Some(NotAStringError))];
        continue;
      }
      var foundWord := FindOne(store, FindByWordQuery(word.s, None));
      var info := if foundWord.Some? then Some(WordInfo(foundWord.value.wordType, foundWord.value.trustScore, foundWord.value.category)) else None;
      results := results + [Validation(word, foundWord.Some?, info, None)];
    }
    var validCount := ValidCount(results);
    r := Validated(results, |words.items|, validCount, |words.items| - validCount);
  }

  /** Every value is valid exactly when the count reaches the total; a
      list without strings has no valid word. */
  lemma {:induction false} ValidCountBounds(results: seq<Validation>)
    ensures ValidCount(results) == |results| <==> forall k :: 0 <= k < |results| ==> results[k].isValid
    ensures ValidCount(results) == 0 <==> forall k :: 0 <= k < |results| ==> !results[k].isValid
  {
    if results != [] {
      var init := results[..|results| - 1];
      ValidCountBounds(init);
      assert forall k :: 0 <= k < |init| ==> init[k] == results[k];
    }
  }

  /** A word sent in another letter case or with white space around it is
      valid when the word itself was saved. */
  lemma {:induction false} VariantIsValid(store: seq<StoredWord>, i: nat, word: string, variant: string, pre: string, post: string)
    requires i < |store| && store[i].word == SavedKey(word)
    requires ToLower(variant) == ToLower(word)
    requires AllSpace(pre) && AllSpace(post)
    ensures ValidationFor(store, Str(pre + variant + post)).isValid
  {
    VariantFindsSavedWord(store, i, word, variant, pre, post);
  }

  // ---------------------------------------------------------------------
  // GET /export

  /** The txt export: the words, one per line. */
  function TxtExport(words: seq<StoredWord>): string {
    Join(seq(|words|, k requires 0 <= k < |words| => words[k].word), "\n")
  }

  const CsvHeader := "word,type,trustScore,category"

  /** One csv line: the fields joined by commas, an absent category empty. */
  function CsvLine(w: StoredWord): string {
    Join([w.word, w.wordType, IntToString(w.trustScore), w.category.GetOr("")], ",")
  }

  function CsvLines(words: seq<StoredWord>): (lines: seq<string>)
    ensures |lines| == |words|
    ensures forall k :: 0 <= k < |words| ==> lines[k] == CsvLine(words[k])
  {
    seq(|words|, k requires 0 <= k < |words| => CsvLine(words[k]))
  }

  /** The csv export: the header, then one line per word. */
  function CsvExport(words: seq<StoredWord>): string {
    Join([CsvHeader] + CsvLines(words), "\n")
  }

  /** Reading the txt export line by line gives the words back, when no
      word holds a line break. */
  lemma {:induction false} TxtExportReadsBack(words: seq<StoredWord>)
    requires |words| >= 1
    requires forall k :: 0 <= k < |words| ==> Lacks(words[k].word, '\n')
    ensures Split(TxtExport(words), '\n') == seq(|words|, k requires 0 <= k < |words| => words[k].word)
  {
    SplitJoin(seq(|words|, k requires 0 <= k < |words| => words[k].word), '\n');
  }

  /** A text field fit for a csv line: no comma, no line break. */
  predicate PlainField(s: string) {
    Lacks(s, ',') && Lacks(s, '\n')
  }

  predicate PlainWord(w: StoredWord) {
    PlainField(w.word) && PlainField(w.wordType) && (w.category.Some? ==> PlainField(w.category.value))
  }

  /** A number's rendering holds neither separator. */
  lemma {:induction false} IntToStringPlain(n: int)
    ensures PlainField(IntToString(n))
  {
  }

  /** Reading the csv export back, line by line and then field by field,
      gives the header and then each word's fields, from which `parseInt`
      recovers the trust score; this holds when no text field holds a comma
      or a line break. */
  lemma {:induction false} CsvExportReadsBack(words: seq<StoredWord>, k: nat)
    requires forall j :: 0 <= j < |words| ==> PlainWord(words[j])
    requires k < |words|
    ensures var lines := Split(CsvExport(words), '\n');
      && |lines| == |words| + 1
      && lines[0] == CsvHeader
      && var fields := Split(lines[k + 1], ',');
        fields == [words[k].word, words[k].wordType, IntToString(words[k].trustScore), words[k].category.GetOr("")]
        && ParseInt(fields[2]) == Some(words[k].trustScore)
  {
    CsvExportLines(words);
    CsvLineFields(words[k]);
    var lines := [CsvHeader] + CsvLines(words);
    assert lines[k + 1] == CsvLine(words[k]);
  }

  /** The csv export splits at line breaks into the header and the lines. */
  lemma {:induction false} CsvExportLines(words: seq<StoredWord>)
    requires forall j :: 0 <= j < |words| ==> PlainWord(words[j])
    ensures Split(CsvExport(words), '\n') == [CsvHeader] + CsvLines(words)
  {
    var all := [CsvHeader] + CsvLines(words);
    forall j | 0 <= j < |all| ensures Lacks(all[j], '\n') {
      if j > 0 {
        CsvLineLacks(words[j - 1], '\n');
      }
    }
    SplitJoin(all, '\n');
  }

  /** A word's csv line splits at commas into its four fields, and the
      trust score reads back as a number. */
  lemma {:induction false} CsvLineFields(w: StoredWord)
    requires PlainWord(w)
    ensures var fields := Split(CsvLine(w), ',');
      fields == [w.word, w.wordType, IntToString(w.trustScore), w.category.GetOr("")]
      && ParseInt(fields[2]) == Some(w.trustScore)
  {
    var fields := [w.word, w.wordType, IntToString(w.trustScore), w.category.GetOr("")];
    IntToStringPlain(w.trustScore);
    SplitJoin(fields, ',');
    ParseIntOfString(w.trustScore);
  }

  /** A line built from plain fields holds no line break. */
  lemma {:induction false} CsvLineLacks(w: StoredWord, c: char)
    requires PlainWord(w)
    requires c == '\n'
    ensures Lacks(CsvLine(w), c)
  {
    var fields := [w.word, w.wordType, IntToString(w.trustScore), w.category.GetOr("")];
    IntToStringPlain(w.trustScore);
    JoinLacks(fields, ",", c);
  }

  lemma {:induction false} JoinLacks(parts: seq<string>, sep: string, c: char)
    requires Lacks(sep, c)
    requires forall k :: 0 <= k < |parts| ==> Lacks(parts[k], c)
    ensures Lacks(Join(parts, sep), c)
  {
    if |parts| > 1 {
      JoinLacks(parts[..|parts| - 1], sep, c);
    }
  }
}
