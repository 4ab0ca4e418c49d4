/** The history controller's own logic: page parameters and pagination of
    `getHistory` and `searchHistory`, the CSV rows of `exportHistory`, and
    the label `deleteAllHistory` reports. Query parameters are strings, or
    `None` when absent. */
module HistoryController {
  import opened Wrappers
  import opened Text
  import opened Pagination
  import opened AppErrors
  import opened TextHistoryModel

  // ---------------------------------------------------------------------
  // getHistory

  /** `Math.min(n, 100)`, NaN staying NaN. */
  function MinLimit(n: Option<int>): (r: Option<int>)
    ensures r.Some? <==> n.Some?
    ensures r.Some? ==> r.value <= 100 && (r.value == n.value || r.value == 100)
  {
    if n.Some? && n.value > 100 then Some(100) else n
  }

  /** The options `getHistory` passes to `getUserHistory`: page 1 and limit
      20 when absent, the limit capped at 100, descending order unless
      another order is named. */
  function HistoryOptionsOf(action: Option<string>, page: Option<string>, limit: Option<string>,
                            sortBy: Option<string>, sortOrder: Option<string>): (o: HistoryOptions)
    ensures o.limit.Some? && o.page.Some? && o.sortOrder.Some?
    ensures o.limit.value.Some? ==> o.limit.value.value <= 100
    ensures o.sortOrder.value == -1 <==> sortOrder.None? || sortOrder.value == "desc"
  {
    HistoryOptions(
      if action.Some? && action.value != "" then action else None,
      Some(MinLimit(ParseInt(limit.GetOr("20")))),
      Some(ParseInt(page.GetOr("1"))),
      Some(sortBy.GetOr("createdAt")),
      Some(if sortOrder.GetOr("desc") == "desc" then -1 else 1))
  }

  /** The `pagination` object of a listing. `limit` is `None` where the
      object has no such field, and otherwise the limit used, NaN included. */
  datatype PageInfo = PageInfo(
    currentPage: Option<int>, totalPages: Number, totalItems: nat, hasNext: bool, hasPrev: bool,
    limit: Option<Option<int>>)

  /** The pagination of `getHistory` for `total` matching records. */
  function HistoryPagination(options: HistoryOptions, total: nat): PageInfo
    requires options.limit.Some? && options.page.Some?
  {
    var totalPages := CeilDiv(total, options.limit.value);
    PageInfo(options.page.value, totalPages, total,
             Less(options.page.value, totalPages), HasPrev(options.page.value), Some(options.limit.value))
  }

  /** Without parameters the first page of 20 is asked for, newest first. */
  lemma {:induction false} HistoryDefaults(userId: string)
    ensures var o := HistoryOptionsOf(None, None, None, None, None);
      GetUserHistory(userId, o) == HistoryQuery(userId, None, "createdAt", -1, Some(0), Some(20))
  {
    ParseIntOfString(20);
    ParseIntOfString(1);
    assert NatToString(2) == "2";
    assert IntToString(20) == "20" && IntToString(1) == "1";
  }

  /** `hasNext` holds exactly when records remain after the page shown, for
      any page from 1 on and any positive limit the client asks for; the
      limit reported is the one asked for, capped at 100. */
  lemma {:induction false} HistoryHasNext(page: int, limit: int, total: nat)
    requires page >= 1 && limit > 0
    ensures var o := HistoryOptionsOf(None, Some(IntToString(page)), Some(IntToString(limit)), None, None);
      var l := if limit > 100 then 100 else limit;
      HistoryPagination(o, total).hasNext <==> page * l < total
    ensures var o := HistoryOptionsOf(None, Some(IntToString(page)), Some(IntToString(limit)), None, None);
      HistoryPagination(o, total).limit == Some(Some(if limit > 100 then 100 else limit))
  {
    ParseIntOfRendering(page, "");
    ParseIntOfRendering(limit, "");
    assert IntToString(page) + "" == IntToString(page);
    assert IntToString(limit) + "" == IntToString(limit);
    var l := if limit > 100 then 100 else limit;
    HasNextMeansMoreItems(total, page, l);
  }

  // ---------------------------------------------------------------------
  // searchHistory

  const ShortQueryMessage := "Qidiruv so'zi kamida 2 ta belgidan iborat bo'lishi kerak"

  /** The search guard: a missing query, or one shorter than two characters
      once trimmed, is a 400 error. */
  function SearchGuard(query: Option<string>): (r: Option<AppError>)
    ensures r.None? <==> query.Some? && |Trim(query.value)| >= 2
    ensures r.Some? ==> r.value.statusCode == 400 && r.value.status == "fail"
  {
    ClientErrorsFail(400);
    if query.None? || query.value == "" || |Trim(query.value)| < 2 then Some(MakeAppError(ShortQueryMessage, 400))
    else None
  }

  /** The pagination of `searchHistory`: page 1 and limit 20 when absent, no
      cap on the limit, and `hasNext` computed from the number of records
      returned. */
  function SearchPagination(page: Option<string>, limit: Option<string>, returned: nat, total: nat): PageInfo
  {
    var p := ParseInt(page.GetOr("1"));
    var l := ParseInt(limit.GetOr("20"));
    var skip := Skip(p, l);
    PageInfo(p, CeilDiv(total, l), total, skip.Some? && skip.value + returned < total, HasPrev(p), None)
  }

  /** The number of records the store returns for a window: at most
      `limit`, and none past the end. */
  function WindowSize(total: nat, skip: int, limit: nat): nat {
    var left := if total > skip then total - skip else 0;
    if left < limit then left else limit
  }

  /** The search's `hasNext` (from the records returned) agrees with the
      history listing's (from the page count). */
  lemma {:induction false} SearchHasNextAgrees(page: int, limit: int, total: nat)
    requires page >= 1 && limit > 0
    ensures var returned := WindowSize(total, (page - 1) * limit, limit);
      var info := SearchPagination(Some(IntToString(page)), Some(IntToString(limit)), returned, total);
      info.hasNext <==> Less(Some(page), CeilDiv(total, Some(limit)))
  {
    ParseIntOfRendering(page, "");
    ParseIntOfRendering(limit, "");
    assert IntToString(page) + "" == IntToString(page);
    assert IntToString(limit) + "" == IntToString(limit);
    HasNextMeansMoreItems(total, page, limit);
  }

  // ---------------------------------------------------------------------
  // exportHistory (CSV)

  /** `s.replace(/"/g, '""')` */
  function DoubleQuotes(s: string): (r: string)
    ensures |r| >= |s|
  {
    if s == [] then []
    else (if s[0] == '"' then "\"\"" else [s[0]]) + DoubleQuotes(s[1..])
  }

  /** A text field as written in a row: in quotes, with every inner quote
      doubled (section 2, rule 7 of RFC 4180). */
  function Quote(s: string): string {
    "\"" + DoubleQuotes(s) + "\""
  }

  /** The body of a quoted field after its opening quote: the value up to
      the closing quote, with `""` read as one quote, and what follows the
      closing quote; `None` when the quote is never closed. */
  function ReadQuotedBody(t: string): Option<(string, string)>
  {
    if t == [] then None
    else if t[0] == '"' then
      if |t| > 1 && t[1] == '"' then
        match ReadQuotedBody(t[2..])
        case None => None
        case Some(p) => Some(("\"" + p.0, p.1))
      else Some(([], t[1..]))
    else
      match ReadQuotedBody(t[1..])
      case None => None
      case Some(p) => Some(([t[0]] + p.0, p.1))
  }

  /** A CSV reader's view of a quoted field at the front of `s`: its value
      and the rest of the row. */
  function ReadQuotedField(s: string): Option<(string, string)> {
    if s == [] || s[0] != '"' then None else ReadQuotedBody(s[1..])
  }

  /** A doubled quote in a body reads as one quote. */
  lemma {:induction false} ReadDoubledQuote(u: string, y: string, rest: string)
    requires ReadQuotedBody(u) == Some((y, rest))
    ensures ReadQuotedBody("\"\"" + u) == Some(("\"" + y, rest))
  {
    assert ("\"\"" + u)[2..] == u;
  }

  /** Any other character in a body reads as itself. */
  lemma {:induction false} ReadPlainChar(c: char, u: string, y: string, rest: string)
    requires c != '"' && ReadQuotedBody(u) == Some((y, rest))
    ensures ReadQuotedBody([c] + u) == Some(([c] + y, rest))
  {
    assert ([c] + u)[1..] == u;
  }

  /** The escaped value as the first character's escape followed by the
      escape of the others. */
  lemma {:induction false} DoubleQuotesCons(x: string, rest: string)
    requires x != []
    ensures DoubleQuotes(x) + "\"" + rest
      == (if x[0] == '"' then "\"\"" else [x[0]]) + (DoubleQuotes(x[1..]) + "\"" + rest)
  {
  }

  /** One character of the value, escaped, in front of a body that reads
      back. */
  lemma {:induction false} ReadEscapedStep(x: string, rest: string)
    requires x != []
    requires ReadQuotedBody(DoubleQuotes(x[1..]) + "\"" + rest) == Some((x[1..], rest))
    ensures ReadQuotedBody(DoubleQuotes(x) + "\"" + rest) == Some((x, rest))
  {
    var u := DoubleQuotes(x[1..]) + "\"" + rest;
    DoubleQuotesCons(x, rest);
    if x[0] == '"' {
      ReadDoubledQuote(u, x[1..], rest);
      assert "\"" + x[1..] == x;
    } else {
      ReadPlainChar(x[0], u, x[1..], rest);
      assert [x[0]] + x[1..] == x;
    }
  }

  lemma {:induction false} ReadEscaped(x: string, rest: string)
    requires rest == [] || rest[0] != '"'
    ensures ReadQuotedBody(DoubleQuotes(x) + "\"" + rest) == Some((x, rest))
  {
    if x == [] {
      assert DoubleQuotes(x) + "\"" + rest == "\"" + rest;
      assert ("\"" + rest)[1..] == rest;
    } else {
      ReadEscaped(x[1..], rest);
      ReadEscapedStep(x, rest);
    }
  }

  /** Reading a quoted field back gives the original text and leaves the
      rest of the row, whatever the text contains (quotes, commas, line
      breaks), as long as the row does not go on with a quote. */
  lemma {:induction false} QuoteRoundTrip(x: string, rest: string)
    requires rest == [] || rest[0] != '"'
    ensures ReadQuotedField(Quote(x) + rest) == Some((x, rest))
  {
    ReadEscaped(x, rest);
    assert (Quote(x) + rest)[1..] == DoubleQuotes(x) + "\"" + rest;
  }

  /** The output column: the first non-empty of corrected, improved,
      converted and song, or "". */
  function OutputText(fields: seq<Option<string>>): (r: string)
    ensures r == "" <==> forall i :: 0 <= i < |fields| ==> fields[i].None? || fields[i].value == ""
    ensures r != "" ==> exists i :: 0 <= i < |fields| && fields[i] == Some(r)
                          && forall j :: 0 <= j < i ==> fields[j].None? || fields[j].value == ""
  {
    if fields == [] then ""
    else if fields[0].Some? && fields[0].value != "" then fields[0].value
    else
      var r := OutputText(fields[1..]);
      assert forall i :: 1 <= i < |fields| ==> fields[i] == fields[1..][i - 1];
      if r != "" then
        var i :| 0 <= i < |fields[1..]| && fields[1..][i] == Some(r)
                 && forall j :: 0 <= j < i ==> fields[1..][j].None? || fields[1..][j].value == "";
        assert fields[i + 1] == Some(r);
        r
      else r
  }

  /** A history record as the export reads it. */
  datatype ExportItem = ExportItem(
    date: string, action: string, inputText: string,
    corrected: Option<string>, improved: Option<string>, converted: Option<string>, song: Option<string>,
    success: bool)

  function SuccessLabel(success: bool): string {
    if success then "Ha" else "Yo'q"
  }

  function OutputOf(item: ExportItem): string {
    OutputText([item.corrected, item.improved, item.converted, item.song])
  }

  /** One CSV row: date, action, quoted input, quoted output, success. */
  function CsvRow(item: ExportItem): string {
    item.date + "," + item.action + "," + Quote(item.inputText) + "," + Quote(OutputOf(item))
    + "," + SuccessLabel(item.success)
  }

  const CsvHeader := "Sana,Harakat,Kirish matni,Chiqish matni,Muvaffaqiyat\n"

  /** The CSV rows of the records, in order. */
  function CsvRows(items: seq<ExportItem>): (rows: seq<string>)
    ensures |rows| == |items|
    ensures forall j :: 0 <= j < |items| ==> rows[j] == CsvRow(items[j])
  {
    seq(|items|, j requires 0 <= j < |items| => CsvRow(items[j]))
  }

  /** The CSV text for some rows: the header, then the rows joined by line
      breaks. */
  function CsvText(rows: seq<string>): string {
    CsvHeader + Join(rows, "\n")
  }

  /** The CSV body of `exportHistory`. */
  function CsvExport(items: seq<ExportItem>): string {
    CsvText(CsvRows(items))
  }

  /** The text starts with the header, and each row stands in it right after
      the rows before it, each followed by a line break. */
  lemma {:induction false} CsvTextHasEveryRow(rows: seq<string>, i: nat)
    requires i < |rows|
    ensures CsvText(rows)[..|CsvHeader|] == CsvHeader
    ensures OccursAt(CsvText(rows), rows[i], |CsvHeader| + |Join(rows[..i], "\n")| + (if i > 0 then 1 else 0))
  {
    var k := JoinContainsPart(rows, "\n", i);
    var body := Join(rows, "\n");
    assert (CsvHeader + body)[|CsvHeader| + k..|CsvHeader| + k + |rows[i]|] == body[k..k + |rows[i]|];
  }

  /** The export holds each record's row, in record order. */
  lemma {:induction false} CsvExportHasEveryRow(items: seq<ExportItem>, i: nat)
    requires i < |items|
    ensures var rows := CsvRows(items);
      rows[i] == CsvRow(items[i]) &&
      OccursAt(CsvExport(items), rows[i], |CsvHeader| + |Join(rows[..i], "\n")| + (if i > 0 then 1 else 0))
  {
    CsvTextHasEveryRow(CsvRows(items), i);
  }

  /** A reader that has taken the date and the action off a row reads the
      input text, then the output text, then the success label. */
  lemma {:induction false} CsvRowReadsBack(item: ExportItem)
    ensures var row := CsvRow(item);
      var prefix := item.date + "," + item.action + ",";
      var ending := "," + SuccessLabel(item.success);
      && row == prefix + (Quote(item.inputText) + "," + Quote(OutputOf(item)) + ending)
      && ReadQuotedField(Quote(item.inputText) + "," + Quote(OutputOf(item)) + ending)
           == Some((item.inputText, "," + Quote(OutputOf(item)) + ending))
      && ReadQuotedField(Quote(OutputOf(item)) + ending) == Some((OutputOf(item), ending))
  {
    var input, output := item.inputText, OutputOf(item);
    var ending := "," + SuccessLabel(item.success);
    var tail := "," + Quote(output) + ending;
    QuoteRoundTrip(input, tail);
    QuoteRoundTrip(output, ending);
    assert Quote(input) + "," + Quote(output) + ending == Quote(input) + tail;
  }

  // ---------------------------------------------------------------------
  // deleteAllHistory

  /** The ending for the records cleared: "barcha" (all) without an action,
      a fixed ending for each known action, the action itself otherwise. */
  function ActionLabel(action: Option<string>): string {
    if action.None? || action.value == "" then "barcha"
    else if action.value == "spellCheck" then "imlo tekshirish"
    else if action.value == "correctText" then "matn to'g'irlash"
    else if action.value == "transliterate" then "transliteratsiya"
    else if action.value == "documentGenerator" then "document generator"
    else if action.value == "generateSong" then "qo'shiq yaratish"
    else action.value
  }

  /** Every action the history schema knows has an ending of its own, none of
      them "barcha" and none the raw action name. */
  lemma {:induction false} ActionLabelsDistinct(a: string, b: string)
    requires a in HistoryActions && b in HistoryActions
    ensures ActionLabel(Some(a)) != "barcha" && ActionLabel(Some(a)) != a
    ensures a != b ==> ActionLabel(Some(a)) != ActionLabel(Some(b))
  {
  }

  /** An action outside the schema is reported as it was given. */
  lemma {:induction false} UnknownActionLabel(a: string)
    requires a != "" && a !in HistoryActions
    ensures ActionLabel(Some(a)) == a
  {
  }
}
