/** The dictionary-backed spell checker of the `/api/check` routes: a cached
    dictionary rebuilt from the word store, a text analyser over a regular
    expression, prefix suggestions and the left-to-right auto-corrector. */
module SpellCheckRoute {
  import opened Wrappers
  import opened Text
  import opened Runs
  import opened Scripts
  import opened OrderedMaps
  import opened StableSort
  import Transliteration

  // ---------------------------------------------------------------------
  // Normalisation and script detection

  /** `normalizeWord`: an empty word gives "", anything else is lower-cased
      and trimmed. The result is the dictionary key of the word. */
  function NormalizeWord(word: string): string {
    if word == "" then "" else LowerTrim(word)
  }

  /** A key has no upper-case letter and no surrounding white space, and
      only the empty word and white space give the empty key. */
  lemma {:induction false} NormalizeWordShape(word: string)
    ensures var r := NormalizeWord(word);
      && IsLowerCase(r)
      && (r == [] || (!IsSpace(r[0]) && !IsSpace(r[|r| - 1])))
      && (r == "" <==> AllSpace(word))
  {
    LowerTrimShape(word);
    ToLowerSpaces(word);
    TrimEmpty(ToLower(word));
  }

  /** Normalising twice changes nothing. */
  lemma {:induction false} NormalizeWordIdempotent(word: string)
    ensures NormalizeWord(NormalizeWord(word)) == NormalizeWord(word)
  {
    LowerTrimIdempotent(word);
  }

  /** Any case variant of a word, padded with white space, has the word's
      key. */
  lemma {:induction false} NormalizeWordVariant(word: string, variant: string, pre: string, post: string)
    requires ToLower(variant) == ToLower(word)
    requires AllSpace(pre) && AllSpace(post)
    ensures NormalizeWord(pre + variant + post) == NormalizeWord(word)
  {
    LowerTrimVariant(word, variant, pre, post);
  }

  /** `/[а-яәғқңөүһҳ]/gi`: both cases of each letter. Unlike the class of the
      transliteration utilities, this one holds `ҳ`. */
  predicate IsCyrillicClass(c: char) {
    || ('а' <= c <= 'я') || ('А' <= c <= 'Я')
    || c == 'ә' || c == 'Ә' || c == 'ғ' || c == 'Ғ' || c == 'қ' || c == 'Қ'
    || c == 'ң' || c == 'Ң' || c == 'ө' || c == 'Ө' || c == 'ү' || c == 'Ү'
    || c == 'һ' || c == 'Һ' || c == 'ҳ' || c == 'Ҳ'
  }

  /** `/[a-zәğqńöüşı]/gi`: both cases of each letter, except that the dotless
      `ı` matches only itself (its upper case is the ASCII `I`, which a
      case-insensitive class without the unicode flag does not map to). */
  predicate IsLatinClass(c: char) {
    || ('a' <= c <= 'z') || ('A' <= c <= 'Z')
    || c == 'ә' || c == 'Ә' || c == 'ğ' || c == 'Ğ' || c == 'ń' || c == 'Ń'
    || c == 'ö' || c == 'Ö' || c == 'ü' || c == 'Ü' || c == 'ş' || c == 'Ş'
    || c == 'ı'
  }

  /** `detectScript` of the route: the alphabet with strictly more letters
      wins, a tie (no letters at all included) is "mixed". */
  function DetectScript(word: string): Script {
    var cyrillic := Count(word, IsCyrillicClass);
    var latin := Count(word, IsLatinClass);
    if cyrillic > latin then Cyrillic
    else if latin > cyrillic then Latin
    else Mixed
  }

  /** The detector's answer against the two letter counts; it never answers
      "unknown". */
  lemma {:induction false} DetectScriptCounts(word: string)
    ensures var r := DetectScript(word);
      var cyrillic, latin := Count(word, IsCyrillicClass), Count(word, IsLatinClass);
      && (r == Cyrillic <==> cyrillic > latin)
      && (r == Latin <==> latin > cyrillic)
      && (r == Mixed <==> cyrillic == latin)
      && r != Unknown
  {
  }

  /** The route's detector and the transliteration utilities' detector
      disagree on `ҳ` and on `ı`. */
  lemma {:induction false} DetectorsDisagree()
    ensures DetectScript("ҳ") == Cyrillic && Transliteration.DetectScript("ҳ") == Mixed
    ensures DetectScript("ı") == Latin && Transliteration.DetectScript("ı") == Mixed
  {
    assert Count("ҳ", IsCyrillicClass) == 1;
    assert Count("ı", IsLatinClass) == 1;
  }

  // ---------------------------------------------------------------------
  // The dictionary and its cache

  /** A checked word as loaded from the store (`word type trustScore`); a
      missing `type` or `trustScore` is `None`. */
  datatype StoredWord = StoredWord(word: string, wordType: Option<string>, trustScore: Option<int>)

  /** The value kept in the dictionary map for a key. */
  datatype WordInfo = WordInfo(word: string, wordType: string, trustScore: int, script: Script)

  /** The map value for one stored word: `type || script` and
      `trustScore || 100`, so an empty type and a zero trust are replaced. */
  function InfoOf(w: StoredWord): (r: WordInfo)
    ensures r.word == w.word && r.script == DetectScript(w.word)
    ensures r.wordType != "" && r.trustScore != 0
    ensures w.wordType.Some? && w.wordType.value != "" ==> r.wordType == w.wordType.value
    ensures w.trustScore.Some? && w.trustScore.value != 0 ==> r.trustScore == w.trustScore.value
  {
    var script := DetectScript(w.word);
    WordInfo(
      w.word,
      if w.wordType.Some? && w.wordType.value != "" then w.wordType.value else script.Name(),
      if w.trustScore.Some? && w.trustScore.value != 0 then w.trustScore.value else 100,
      script)
  }

  /** The key a stored word is filed under. */
  function KeyOf(w: StoredWord): string {
    NormalizeWord(w.word)
  }

  /** The map after `clear()` and one `set` per stored word in load order,
      skipping words whose key is empty. */
  function BuildMap(words: seq<StoredWord>): (m: OrderedMap<string, WordInfo>)
    ensures m.Valid()
  {
    if words == [] then Empty()
    else
      var prev := BuildMap(words[..|words| - 1]);
      var w := words[|words| - 1];
      if KeyOf(w) != "" then prev.Set(KeyOf(w), InfoOf(w)) else prev
  }

  /** The keys of the stored words, in load order. */
  function KeysOf(words: seq<StoredWord>): (r: seq<string>)
    ensures |r| == |words|
  {
    if words == [] then [] else KeysOf(words[..|words| - 1]) + [KeyOf(words[|words| - 1])]
  }

  lemma {:induction false} KeysOfIndex(words: seq<StoredWord>, i: nat)
    requires i < |words|
    ensures KeysOf(words)[i] == KeyOf(words[i])
  {
    if i < |words| - 1 {
      KeysOfIndex(words[..|words| - 1], i);
    }
  }

  /** The keys of the map are exactly the non-empty keys of the stored words. */
  lemma {:induction false} BuildMapKeys(words: seq<StoredWord>, k: string)
    ensures BuildMap(words).Has(k) <==> k != "" && k in KeysOf(words)
  {
    if words != [] {
      BuildMapKeys(words[..|words| - 1], k);
    }
  }

  /** The last stored word with a key decides its value: a later duplicate
      overwrites an earlier one. */
  lemma {:induction false} BuildMapLastWins(words: seq<StoredWord>, i: nat)
    requires i < |words| && KeyOf(words[i]) != ""
    requires forall j :: i < j < |words| ==> KeyOf(words[j]) != KeyOf(words[i])
    ensures BuildMap(words).Has(KeyOf(words[i]))
    ensures BuildMap(words).values[KeyOf(words[i])] == InfoOf(words[i])
  {
    var init := words[..|words| - 1];
    if i < |words| - 1 {
      forall j | i < j < |init| ensures KeyOf(init[j]) != KeyOf(init[i]) {
        assert init[j] == words[j];
      }
      BuildMapLastWins(init, i);
    }
  }

  /** The trust a store sort would order by; a missing score sorts below
      every stored score. */
  function RawTrust(w: StoredWord): int {
    if w.trustScore.Some? then w.trustScore.value else -1
  }

  predicate TrustDescending(words: seq<StoredWord>) {
    forall i, j :: 0 <= i < j < |words| ==> RawTrust(words[i]) >= RawTrust(words[j])
  }

  /** Because the store returns words by descending trust, of several words
      with the same key the map keeps one with the LOWEST trust. */
  lemma {:induction false} LowestTrustWins(words: seq<StoredWord>, i: nat)
    requires TrustDescending(words)
    requires i < |words| && KeyOf(words[i]) != ""
    ensures BuildMap(words).Has(KeyOf(words[i]))
    ensures exists j :: (0 <= j < |words| && KeyOf(words[j]) == KeyOf(words[i])
      && BuildMap(words).values[KeyOf(words[i])] == InfoOf(words[j])
      && RawTrust(words[j]) <= RawTrust(words[i]))
  {
    var j := LastWithKey(words, i);
    BuildMapLastWins(words, j);
    DescendingAt(words, i, j);
  }

  lemma {:induction false} DescendingAt(words: seq<StoredWord>, i: nat, j: nat)
    requires TrustDescending(words) && i <= j < |words|
    ensures RawTrust(words[j]) <= RawTrust(words[i])
  {
  }

  /** The last index at or after `i` with the key of `words[i]`. */
  lemma {:induction false} LastWithKey(words: seq<StoredWord>, i: nat) returns (j: nat)
    requires i < |words|
    ensures i <= j < |words| && KeyOf(words[j]) == KeyOf(words[i])
    ensures forall m :: j < m < |words| ==> KeyOf(words[m]) != KeyOf(words[i])
  {
    var keys := KeysOf(words);
    j := LastOccurrence(keys, i);
    KeysOfIndex(words, i);
    KeysOfIndex(words, j);
    forall m | j < m < |words| ensures KeyOf(words[m]) != KeyOf(words[i]) {
      KeysOfIndex(words, m);
    }
  }

  /** The last index at or after `i` holding the value `s[i]`. */
  lemma {:induction false} LastOccurrence<T>(s: seq<T>, i: nat) returns (j: nat)
    requires i < |s|
    ensures i <= j < |s| && s[j] == s[i]
    ensures forall m :: j < m < |s| ==> s[m] != s[i]
  {
    j := i;
    var m := i + 1;
    while m < |s|
      invariant i <= j < m <= |s|
      invariant s[j] == s[i]
      invariant forall n :: j < n < m ==> s[n] != s[i]
      decreases |s| - m
    {
      if s[m] == s[i] {
        j := m;
      }
      m := m + 1;
    }
  }

  /** Loading order, not trust, decides: of two words with the same key, the
      later one is kept even when its trust is lower. */
  lemma {:induction false} HigherTrustLoses(a: StoredWord, b: StoredWord)
    requires KeyOf(a) == KeyOf(b) != ""
    requires a.trustScore.Some? && b.trustScore.Some? && 0 < b.trustScore.value < a.trustScore.value
    ensures BuildMap([a, b]).Has(KeyOf(a))
    ensures BuildMap([a, b]).values[KeyOf(a)].trustScore == b.trustScore.value < InfoOf(a).trustScore
  {
    BuildMapLastWins([a, b], 1);
  }

  const CacheDuration: nat := 30 * 60 * 1000

  /** What `getDictionary` hands back: the loaded words and the map. */
  datatype Dictionary = Dictionary(words: seq<StoredWord>, wordsMap: OrderedMap<string, WordInfo>)

  /** The module-level cache of the routes: the last successful load, the
      map built from it and the time of that load. */
  class DictionaryCache {
    var dictionaryCache: Option<seq<StoredWord>>
    var dictionaryMap: OrderedMap<string, WordInfo>
    var cacheTimestamp: Option<int>

    /** The map always reflects the cached words, and both are set together. */
    ghost predicate Valid()
      reads this
    {
      && dictionaryMap.Valid()
      && (dictionaryCache.Some? <==> cacheTimestamp.Some?)
      && dictionaryMap == (if dictionaryCache.Some? then BuildMap(dictionaryCache.value) else Empty())
    }

    constructor()
      ensures Valid()
      ensures dictionaryCache == None && cacheTimestamp == None && dictionaryMap == Empty()
    {
      dictionaryCache := None;
      dictionaryMap := Empty();
      cacheTimestamp := None;
    }

    /** The cache may be used: not forced, words present, a (non-zero)
      timestamp and less than the cache duration since it. */
    predicate IsFresh(forceRefresh: bool, now: int)
      reads this
    {
      && !forceRefresh
      && dictionaryCache.Some?
      && cacheTimestamp.Some? && cacheTimestamp.value != 0
      && now - cacheTimestamp.value < CacheDuration
    }

    /** The rebuild after a successful load: `clear()`, then one `set` per
        stored word with a non-empty key, in load order. */
    method RebuildMap(words: seq<StoredWord>)
      modifies this
      ensures dictionaryMap == BuildMap(words)
      ensures dictionaryCache == old(dictionaryCache) && cacheTimestamp == old(cacheTimestamp)
    {
      dictionaryMap := Empty();
      var i := 0;
      while i < |words|
        invariant 0 <= i <= |words|
        invariant dictionaryMap == BuildMap(words[..i])
        invariant dictionaryCache == old(dictionaryCache) && cacheTimestamp == old(cacheTimestamp)
      {
        assert words[..i + 1][..i] == words[..i];
        var normalizedWord := NormalizeWord(words[i].word);
        if normalizedWord != "" && |normalizedWord| > 0 {
          dictionaryMap := dictionaryMap.Set(normalizedWord, InfoOf(words[i]));
        }
        i := i + 1;
      }
      assert words[..i] == words;
    }

    /** `getDictionary(forceRefresh)` at time `now`. `load` is the outcome of
        the store query: the checked words by descending trust, or `None`
        when the query fails. A fresh cache is returned without loading; a
        successful load replaces words, map and timestamp; a failed load
        falls back to the old data when the map is non-empty and is an error
        (`None`) otherwise, changing nothing. */
    method GetDictionary(forceRefresh: bool, now: int, load: Option<seq<StoredWord>>)
      returns (r: Option<Dictionary>)
      requires Valid()
      modifies this
      ensures Valid()
      ensures old(IsFresh(forceRefresh, now)) ==>
        && unchanged(this)
        && r == Some(Dictionary(dictionaryCache.value, dictionaryMap))
      ensures !old(IsFresh(forceRefresh, now)) && load.Some? ==>
        && dictionaryCache == load
        && cacheTimestamp == Some(now)
        && dictionaryMap == BuildMap(load.value)
        && r == Some(Dictionary(load.value, dictionaryMap))
      ensures !old(IsFresh(forceRefresh, now)) && load.None? ==>
        && unchanged(this)
        && r == (if dictionaryCache.Some? && dictionaryMap.Size() > 0
                 then Some(Dictionary(dictionaryCache.value, dictionaryMap))
                 else None)
    {
      if IsFresh(forceRefresh, now) {
        return Some(Dictionary(dictionaryCache.value, dictionaryMap));
      }
      match load
      case None =>
        if dictionaryCache.Some? && dictionaryMap.Size() > 0 {
          return Some(Dictionary(dictionaryCache.value, dictionaryMap));
        }
        return None;
      case Some(words) =>
        RebuildMap(words);
        dictionaryCache := Some(words);
        cacheTimestamp := Some(now);
        return Some(Dictionary(words, dictionaryMap));
    }
  }

  // ---------------------------------------------------------------------
  // Analysis

  /** `/[\wәğqńöüşıĞQŃÖÜŞIа-яәғқңөүһҳ]+/g`, taken literally: it has no `i`
      flag, so the upper-case Cyrillic letters, `Ә`, `Қ` and the other
      upper-case Karakalpak Cyrillic letters are not word characters. */
  predicate IsTokenChar(c: char) {
    || IsWordChar(c)
    || c == 'ә' || c == 'ğ' || c == 'q' || c == 'ń' || c == 'ö' || c == 'ü' || c == 'ş' || c == 'ı'
    || c == 'Ğ' || c == 'Q' || c == 'Ń' || c == 'Ö' || c == 'Ü' || c == 'Ş' || c == 'I'
    || ('а' <= c <= 'я')
    || c == 'ғ' || c == 'қ' || c == 'ң' || c == 'ө' || c == 'ү' || c == 'һ' || c == 'ҳ'
  }

  /** Upper-case Cyrillic letters split words: "Қала" is read as "ала". */
  lemma {:induction false} UppercaseCyrillicSplits()
    ensures !IsTokenChar('Қ') && !IsTokenChar('А') && !IsTokenChar('Ә')
    ensures IsTokenChar('қ') && IsTokenChar('а') && IsTokenChar('ә')
  {
  }

  /** One entry of the analysis. */
  datatype Analysis = Analysis(
    word: string, normalizedWord: string, start: nat, end: nat,
    isCorrect: bool, script: Script, wordInfo: Option<WordInfo>)

  function AnalysisOf(text: string, wordsMap: OrderedMap<string, WordInfo>, sp: Span): Analysis
    requires sp.start <= sp.end <= |text|
  {
    var word := text[sp.start..sp.end];
    var key := NormalizeWord(word);
    Analysis(word, key, sp.start, sp.end, wordsMap.Has(key), DetectScript(word),
             if wordsMap.Has(key) then Some(wordsMap.values[key]) else None)
  }

  /** `analyzeText`: nothing for an empty text or an empty map, otherwise one
      entry per match of the word expression, left to right. */
  function Analyze(text: string, wordsMap: OrderedMap<string, WordInfo>): seq<Analysis> {
    if text == "" || wordsMap.Size() == 0 then []
    else
      var spans := AllRuns(text, IsTokenChar);
      seq(|spans|, k requires 0 <= k < |spans| => AnalysisOf(text, wordsMap, spans[k]))
  }

  /** What each entry of the analysis states about its place: its span is a
      non-empty piece of the text holding exactly its word, made of word
      characters, and entries come in order without overlapping. */
  lemma {:induction false} AnalyzeSpan(text: string, wordsMap: OrderedMap<string, WordInfo>, k: nat)
    requires k < |Analyze(text, wordsMap)|
    ensures var a := Analyze(text, wordsMap)[k];
      && a.start < a.end <= |text|
      && text[a.start..a.end] == a.word
      && (forall j :: a.start <= j < a.end ==> IsTokenChar(text[j]))
      && (k > 0 ==> Analyze(text, wordsMap)[k - 1].end < a.start)
  {
    var spans := AllRuns(text, IsTokenChar);
    RunFacts(text, 0, IsTokenChar, k);
    AnalysisOfSpan(text, wordsMap, spans[k]);
    if k > 0 {
      AnalysisOfSpan(text, wordsMap, spans[k - 1]);
    }
  }

  /** An entry carries its span and the span's characters. */
  lemma {:induction false} AnalysisOfSpan(text: string, wordsMap: OrderedMap<string, WordInfo>, sp: Span)
    requires sp.start <= sp.end <= |text|
    ensures var a := AnalysisOf(text, wordsMap, sp);
      a.start == sp.start && a.end == sp.end && a.word == text[sp.start..sp.end]
  {
  }

  /** A word is correct exactly when its lower-cased, trimmed form is a key
      of the map, and then the entry carries that key's value. */
  lemma {:induction false} AnalyzeVerdict(text: string, wordsMap: OrderedMap<string, WordInfo>, k: nat)
    requires k < |Analyze(text, wordsMap)|
    ensures var a := Analyze(text, wordsMap)[k];
      && (a.isCorrect <==> wordsMap.Has(LowerTrim(a.word)))
      && (a.isCorrect <==> a.wordInfo.Some?)
      && (a.isCorrect ==> a.wordInfo.value == wordsMap.values[LowerTrim(a.word)])
  {
    RunFacts(text, 0, IsTokenChar, k);
  }

  /** Every word character of a non-empty text lies in some entry when the
      map is non-empty: the analysis misses no word. */
  lemma {:induction false} AnalyzeCovers(text: string, wordsMap: OrderedMap<string, WordInfo>, j: nat)
    requires wordsMap.Size() > 0
    requires j < |text| && IsTokenChar(text[j])
    ensures exists k :: (0 <= k < |Analyze(text, wordsMap)|
      && Analyze(text, wordsMap)[k].start <= j < Analyze(text, wordsMap)[k].end)
  {
    var k := RunContaining(text, 0, IsTokenChar, j);
    assert Analyze(text, wordsMap)[k].start <= j < Analyze(text, wordsMap)[k].end;
  }

  /** One turn of `analyzeText`'s loop: the run found is the next one, and
      its entry is pushed. */
  method AnalyzeStep(text: string, wordsMap: OrderedMap<string, WordInfo>, ghost spans: seq<Span>,
                     results: seq<Analysis>, lastIndex: nat, sp: Span) returns (results': seq<Analysis>)
    requires spans == AllRuns(text, IsTokenChar)
    requires lastIndex <= |text| && |results| <= |spans|
    requires spans[|results|..] == RunsFrom(text, lastIndex, IsTokenChar)
    requires NextRun(text, lastIndex, IsTokenChar) == Some(sp)
    requires forall i :: 0 <= i < |results| ==> results[i] == AnalysisOf(text, wordsMap, spans[i])
    ensures |results'| == |results| + 1 <= |spans|
    ensures spans[|results'|..] == RunsFrom(text, sp.end, IsTokenChar)
    ensures forall i :: 0 <= i < |results'| ==> results'[i] == AnalysisOf(text, wordsMap, spans[i])
  {
    NextRunAdvance(text, lastIndex, IsTokenChar, spans, |results|);
    var entry := AnalyzeMatch(text, wordsMap, sp);
    results' := results + [entry];
  }

  method AnalyzeMatch(text: string, wordsMap: OrderedMap<string, WordInfo>, sp: Span) returns (entry: Analysis)
    requires sp.start <= sp.end <= |text|
    ensures entry == AnalysisOf(text, wordsMap, sp)
  {
    var originalWord := text[sp.start..sp.end];
    var normalizedWord := NormalizeWord(originalWord);
    var wordScript := DetectScript(originalWord);
    var isCorrect := wordsMap.Has(normalizedWord);
    var wordInfo := if isCorrect then Some(wordsMap.values[normalizedWord]) else None;
    entry := Analysis(originalWord, normalizedWord, sp.start, sp.start + |originalWord|,
                      isCorrect, wordScript, wordInfo);
  }

  /** The analyser as written: a loop over `exec` with a moving `lastIndex`. */
  method AnalyzeText(text: string, wordsMap: OrderedMap<string, WordInfo>)
    returns (results: seq<Analysis>)
    ensures results == Analyze(text, wordsMap)
  {
    if text == "" || wordsMap.Size() == 0 {
      return [];
    }
    ghost var spans := AllRuns(text, IsTokenChar);
    results := [];
    var lastIndex := 0;
    var match_ := NextRun(text, lastIndex, IsTokenChar);
    while match_.Some?
      invariant lastIndex <= |text|
      invariant match_ == NextRun(text, lastIndex, IsTokenChar)
      invariant |results| <= |spans|
      invariant spans[|results|..] == RunsFrom(text, lastIndex, IsTokenChar)
      invariant forall i :: 0 <= i < |results| ==> results[i] == AnalysisOf(text, wordsMap, spans[i])
      decreases |text| - lastIndex
    {
      var sp := match_.value;
      results := AnalyzeStep(text, wordsMap, spans, results, lastIndex, sp);
      lastIndex := sp.end;
      match_ := NextRun(text, lastIndex, IsTokenChar);
    }
    assert RunsFrom(text, lastIndex, IsTokenChar) == [];
  }

  // ---------------------------------------------------------------------
  // Suggestions

  const SuggestionConfidence: nat := 85

  /** One suggestion of `findSuggestions` (its type is always "substring"). */
  datatype RouteSuggestion = RouteSuggestion(word: string, confidence: nat, kind: string, script: Script)

  /** A dictionary entry is offered for a target: same script or a "mixed"
      entry, its key holds the target's first three characters, and it is not
      the target itself. */
  predicate Offered(key: string, info: WordInfo, target: string, targetScript: Script) {
    && (info.script == targetScript || info.script == Mixed)
    && Contains(key, Prefix(target, 3))
    && key != target
  }

  function SuggestionOf(info: WordInfo): RouteSuggestion {
    RouteSuggestion(info.word, SuggestionConfidence, "substring", info.script)
  }

  /** The offered entries among the first `n` keys of the map, in the map's
      order. */
  function Candidates(wordsMap: OrderedMap<string, WordInfo>, n: nat, target: string, targetScript: Script)
    : seq<RouteSuggestion>
    requires wordsMap.Valid() && n <= |wordsMap.keys|
  {
    if n == 0 then []
    else
      var key := wordsMap.keys[n - 1];
      assert key in wordsMap.keys;
      Candidates(wordsMap, n - 1, target, targetScript)
      + (if Offered(key, wordsMap.values[key], target, targetScript) then [SuggestionOf(wordsMap.values[key])] else [])
  }

  /** `findSuggestions(targetWord, wordsMap, limit)`: the first `limit`
      offered entries. */
  function Suggestions(targetWord: string, wordsMap: OrderedMap<string, WordInfo>, limit: nat): seq<RouteSuggestion>
    requires wordsMap.Valid()
  {
    Take(Candidates(wordsMap, |wordsMap.keys|, NormalizeWord(targetWord), DetectScript(targetWord)), limit)
  }

  /** The suggestion is that of an entry of the map offered for the
      target. */
  ghost predicate FromOffered(wordsMap: OrderedMap<string, WordInfo>, target: string, targetScript: Script,
                              suggestion: RouteSuggestion)
  {
    exists key :: (key in wordsMap.keys && key in wordsMap.values
      && Offered(key, wordsMap.values[key], target, targetScript)
      && suggestion == SuggestionOf(wordsMap.values[key]))
  }

  lemma {:induction false} CandidatesSound(
    wordsMap: OrderedMap<string, WordInfo>, n: nat, target: string, targetScript: Script, c: nat)
    requires wordsMap.Valid() && n <= |wordsMap.keys|
    requires c < |Candidates(wordsMap, n, target, targetScript)|
    ensures FromOffered(wordsMap, target, targetScript, Candidates(wordsMap, n, target, targetScript)[c])
  {
    var key := wordsMap.keys[n - 1];
    assert key in wordsMap.keys;
    if c < |Candidates(wordsMap, n - 1, target, targetScript)| {
      CandidatesSound(wordsMap, n - 1, target, targetScript, c);
    }
  }

  lemma {:induction false} CandidatesComplete(
    wordsMap: OrderedMap<string, WordInfo>, n: nat, target: string, targetScript: Script, i: nat)
    requires wordsMap.Valid() && i < n <= |wordsMap.keys|
    requires Offered(wordsMap.keys[i], wordsMap.values[wordsMap.keys[i]], target, targetScript)
    ensures SuggestionOf(wordsMap.values[wordsMap.keys[i]]) in Candidates(wordsMap, n, target, targetScript)
  {
    if i < n - 1 {
      CandidatesComplete(wordsMap, n - 1, target, targetScript, i);
    }
  }

  /** One more key adds its suggestion exactly when it is offered. */
  lemma {:induction false} CandidatesStep(wordsMap: OrderedMap<string, WordInfo>, k: nat, target: string, targetScript: Script)
    requires wordsMap.Valid() && k < |wordsMap.keys|
    ensures wordsMap.keys[k] in wordsMap.values
    ensures var key := wordsMap.keys[k];
      var info := wordsMap.values[key];
      Candidates(wordsMap, k + 1, target, targetScript)
      == Candidates(wordsMap, k, target, targetScript)
         + (if Offered(key, info, target, targetScript) then [SuggestionOf(info)] else [])
  {
    assert wordsMap.keys[k] in wordsMap.keys;
  }

  /** The candidates among fewer keys are a prefix of those among more. */
  lemma {:induction false} CandidatesPrefix(
    wordsMap: OrderedMap<string, WordInfo>, k: nat, n: nat, target: string, targetScript: Script)
    requires wordsMap.Valid() && k <= n <= |wordsMap.keys|
    ensures var c := Candidates(wordsMap, k, target, targetScript);
      var all := Candidates(wordsMap, n, target, targetScript);
      |c| <= |all| && c == all[..|c|]
    decreases n
  {
    if k < n {
      CandidatesPrefix(wordsMap, k, n - 1, target, targetScript);
      var c := Candidates(wordsMap, k, target, targetScript);
      var prev := Candidates(wordsMap, n - 1, target, targetScript);
      var all := Candidates(wordsMap, n, target, targetScript);
      assert all[..|prev|] == prev;
      assert all[..|c|] == prev[..|c|];
    }
  }

  /** Every suggestion has confidence 85, above the auto-corrector's
      threshold of 75, and type "substring". */
  lemma {:induction false} SuggestionsConfidence(targetWord: string, wordsMap: OrderedMap<string, WordInfo>, limit: nat)
    requires wordsMap.Valid()
    ensures var r := Suggestions(targetWord, wordsMap, limit);
      forall n :: 0 <= n < |r| ==> r[n].confidence == 85 > 75 && r[n].kind == "substring"
  {
    var target, script := NormalizeWord(targetWord), DetectScript(targetWord);
    var r := Suggestions(targetWord, wordsMap, limit);
    forall n | 0 <= n < |r| ensures r[n].confidence == 85 && r[n].kind == "substring" {
      CandidatesSound(wordsMap, |wordsMap.keys|, target, script, n);
    }
  }

  /** At most `limit` suggestions come back, each the stored word of an
      offered map entry. */
  lemma {:induction false} SuggestionsSound(targetWord: string, wordsMap: OrderedMap<string, WordInfo>, limit: nat)
    requires wordsMap.Valid()
    ensures var r := Suggestions(targetWord, wordsMap, limit);
      && |r| <= limit
      && (forall n :: 0 <= n < |r| ==>
            FromOffered(wordsMap, NormalizeWord(targetWord), DetectScript(targetWord), r[n]))
  {
    var target, script := NormalizeWord(targetWord), DetectScript(targetWord);
    var c := Candidates(wordsMap, |wordsMap.keys|, target, script);
    var r := Suggestions(targetWord, wordsMap, limit);
    forall i | 0 <= i < |r| ensures FromOffered(wordsMap, target, script, r[i]) {
      CandidatesSound(wordsMap, |wordsMap.keys|, target, script, i);
    }
  }

  /** When fewer than `limit` suggestions come back, every offered entry is
      among them. */
  lemma {:induction false} SuggestionsComplete(targetWord: string, wordsMap: OrderedMap<string, WordInfo>, limit: nat)
    requires wordsMap.Valid()
    ensures var r := Suggestions(targetWord, wordsMap, limit);
      |r| < limit ==> (forall key :: (
        (key in wordsMap.keys
         && Offered(key, wordsMap.values[key], NormalizeWord(targetWord), DetectScript(targetWord)))
        ==> SuggestionOf(wordsMap.values[key]) in r))
  {
    var target, script := NormalizeWord(targetWord), DetectScript(targetWord);
    var n := |wordsMap.keys|;
    var r := Suggestions(targetWord, wordsMap, limit);
    if |r| < limit {
      assert r == Candidates(wordsMap, n, target, script);
      forall key | key in wordsMap.keys && Offered(key, wordsMap.values[key], target, script)
        ensures SuggestionOf(wordsMap.values[key]) in r
      {
        var i :| 0 <= i < n && wordsMap.keys[i] == key;
        CandidatesComplete(wordsMap, n, target, script, i);
      }
    }
  }

  /** The suggestion loop as written: map entries in order, stopping as soon
      as `limit` suggestions have been collected. */
  method FindSuggestions(targetWord: string, wordsMap: OrderedMap<string, WordInfo>, limit: nat)
    returns (suggestions: seq<RouteSuggestion>)
    requires wordsMap.Valid()
    ensures suggestions == Suggestions(targetWord, wordsMap, limit)
  {
    var normalizedTarget := NormalizeWord(targetWord);
    var targetScript := DetectScript(targetWord);
    suggestions := CollectSuggestions(wordsMap, limit, normalizedTarget, targetScript);
  }

  /** The loop of `findSuggestions` over the map, for a normalised target
      and its script. */
  method CollectSuggestions(wordsMap: OrderedMap<string, WordInfo>, limit: nat, normalizedTarget: string, targetScript: Script)
    returns (suggestions: seq<RouteSuggestion>)
    requires wordsMap.Valid()
    ensures suggestions == Take(Candidates(wordsMap, |wordsMap.keys|, normalizedTarget, targetScript), limit)
  {
    suggestions := [];
    var k := 0;
    while k < |wordsMap.keys|
      invariant 0 <= k <= |wordsMap.keys|
      invariant suggestions == Candidates(wordsMap, k, normalizedTarget, targetScript)
      invariant |suggestions| <= limit
    {
      if |suggestions| >= limit {
        break;
      }
      var dictWord := wordsMap.keys[k];
      assert dictWord in wordsMap.keys;
      var wordInfo := wordsMap.values[dictWord];
      CandidatesStep(wordsMap, k, normalizedTarget, targetScript);
      if wordInfo.script == targetScript || wordInfo.script == Mixed {
        if Contains(dictWord, Prefix(normalizedTarget, 3)) && dictWord != normalizedTarget {
          suggestions := suggestions + [RouteSuggestion(wordInfo.word, 85, "substring", wordInfo.script)];
        }
      }
      k := k + 1;
    }
    CandidatesPrefix(wordsMap, k, |wordsMap.keys|, normalizedTarget, targetScript);
    ghost var all := Candidates(wordsMap, |wordsMap.keys|, normalizedTarget, targetScript);
    assert suggestions == all[..|suggestions|];
    if k < |wordsMap.keys| {
      assert |suggestions| == limit;
      assert Take(all, limit) == all[..limit];
    } else {
      assert Take(all, limit) == all;
    }
  }

  // ---------------------------------------------------------------------
  // POST /

  const TextRequired := "Matn kiritilishi shart"
  const DictionaryEmpty := "So'zlar bazasi bo'sh yoki yuklanmagan"

  /** One entry of the check's reply: the analysis of a word and, for a word
      outside the dictionary, its suggestions. */
  datatype CheckedWord = CheckedWord(analysis: Analysis, suggestions: seq<RouteSuggestion>)

  /** The reply of `POST /`: a 400 for a missing text, a 503 for an empty
      dictionary, or the checked words with their counts. */
  datatype CheckReply =
    | CheckRefused(error: string)
    | DictionaryUnavailable(error: string)
    | Checked(results: seq<CheckedWord>, totalWords: nat, correctWords: int, incorrectWords: nat, dictionarySize: nat)

  /** The suggestions the route attaches to an analysed word: none for a
      dictionary word, up to three otherwise. */
  function CheckedWordOf(a: Analysis, wordsMap: OrderedMap<string, WordInfo>): CheckedWord
    requires wordsMap.Valid()
  {
    CheckedWord(a, if a.isCorrect then [] else Suggestions(a.word, wordsMap, 3))
  }

  /** `filter((r) => !r.isCorrect).length` */
  function ErrorCount(results: seq<CheckedWord>): (n: nat)
    ensures n <= |results|
  {
    if results == [] then 0
    else ErrorCount(results[..|results| - 1]) + (if results[|results| - 1].analysis.isCorrect then 0 else 1)
  }

  /** No word is an error exactly when the count is zero, and every word is
      one exactly when the count is the number of words. */
  lemma {:induction false} ErrorCountBounds(results: seq<CheckedWord>)
    ensures ErrorCount(results) == 0 <==> forall k :: 0 <= k < |results| ==> results[k].analysis.isCorrect
    ensures ErrorCount(results) == |results| <==> forall k :: 0 <= k < |results| ==> !results[k].analysis.isCorrect
  {
    if results != [] {
      var init := results[..|results| - 1];
      ErrorCountBounds(init);
      assert forall k :: 0 <= k < |init| ==> init[k] == results[k];
    }
  }

  /** `POST /` with the dictionary's map: the text guard, the empty-map
      guard, then one entry per analysed word, with suggestions for the words
      outside the dictionary, and the counts. */
  method CheckText(text: Value, wordsMap: OrderedMap<string, WordInfo>) returns (r: CheckReply)
    requires wordsMap.Valid()
    ensures !IsNonEmptyString(text) <==> r == CheckRefused(TextRequired)
    ensures IsNonEmptyString(text) && wordsMap.Size() == 0 <==> r == DictionaryUnavailable(DictionaryEmpty)
    ensures r.Checked? ==>
      && |r.results| == |Analyze(text.s, wordsMap)|
      && (forall k :: 0 <= k < |r.results| ==> r.results[k] == CheckedWordOf(Analyze(text.s, wordsMap)[k], wordsMap))
      && r.totalWords == |r.results|
      && r.incorrectWords == ErrorCount(r.results)
      && r.correctWords + r.incorrectWords == r.totalWords
      && r.dictionarySize == wordsMap.Size()
  {
    if !IsNonEmptyString(text) {
      return CheckRefused(TextRequired);
    }
    if wordsMap.Size() == 0 {
      return DictionaryUnavailable(DictionaryEmpty);
    }
    var results := AnalyzeText(text.s, wordsMap);
    var checked: seq<CheckedWord> := [];
    for k := 0 to |results|
      invariant |checked| == k
      invariant forall m :: 0 <= m < k ==> checked[m] == CheckedWordOf(results[m], wordsMap)
    {
      var entry := CheckWord(results[k], wordsMap);
      checked := checked + [entry];
    }
    var errorCount := ErrorCount(checked);
    r := Checked(checked, |results|, |results| - errorCount, errorCount, wordsMap.Size());
  }

  /** The callback of `results.map`: suggestions only for a word outside
      the dictionary. */
  method CheckWord(a: Analysis, wordsMap: OrderedMap<string, WordInfo>) returns (entry: CheckedWord)
    requires wordsMap.Valid()
    ensures entry == CheckedWordOf(a, wordsMap)
  {
    var suggestions: seq<RouteSuggestion> := [];
    if !a.isCorrect {
      suggestions := FindSuggestions(a.word, wordsMap, 3);
    }
    entry := CheckedWord(a, suggestions);
  }

  /** What each checked word carries: a dictionary word has no suggestions;
      any other word has at most three, each the stored word of an entry
      offered for it, with confidence 85. */
  lemma {:induction false} CheckedWordSuggestions(a: Analysis, wordsMap: OrderedMap<string, WordInfo>)
    requires wordsMap.Valid()
    ensures var c := CheckedWordOf(a, wordsMap);
      && c.analysis == a
      && (a.isCorrect ==> c.suggestions == [])
      && |c.suggestions| <= 3
      && (forall n :: 0 <= n < |c.suggestions| ==>
            c.suggestions[n].confidence == 85
            && FromOffered(wordsMap, NormalizeWord(a.word), DetectScript(a.word), c.suggestions[n]))
  {
    if !a.isCorrect {
      SuggestionsSound(a.word, wordsMap, 3);
      SuggestionsConfidence(a.word, wordsMap, 3);
    }
  }

  // ---------------------------------------------------------------------
  // Auto-correct

  /** A replacement of `text[start..end)` by `replacement`, in the
      coordinates of the original text. */
  datatype Edit = Edit(start: nat, end: nat, replacement: string)

  /** Edits inside a text of length `n`, in order and not overlapping: the
      last one ends by `n`, and the others fit before its start. */
  predicate EditsFit(edits: seq<Edit>, n: nat)
    decreases |edits|
  {
    edits == []
    || (var e := edits[|edits| - 1];
        e.start <= e.end <= n && EditsFit(edits[..|edits| - 1], e.start))
  }

  /** Edits that fit a shorter text fit a longer one. */
  lemma {:induction false} EditsFitWeaken(edits: seq<Edit>, m: nat, n: nat)
    requires EditsFit(edits, m) && m <= n
    ensures EditsFit(edits, n)
  {
  }

  /** Every edit lies inside the text, and each ends before the next
      begins. */
  lemma {:induction false} EditsFitOrdered(edits: seq<Edit>, n: nat, i: nat)
    requires EditsFit(edits, n) && i < |edits|
    ensures edits[i].start <= edits[i].end <= n
    ensures i + 1 < |edits| ==> edits[i].end <= edits[i + 1].start
    decreases |edits|
  {
    var last := |edits| - 1;
    var init := edits[..last];
    if i < last {
      EditsFitOrdered(init, edits[last].start, i);
      if i + 1 < last {
        assert init[i + 1] == edits[i + 1];
      }
    }
  }

  /** The text with every edit applied. */
  function Rewrite(text: string, edits: seq<Edit>): string
    requires EditsFit(edits, |text|)
    decreases |edits|
  {
    if edits == [] then text
    else
      var e := edits[|edits| - 1];
      Rewrite(text[..e.start], edits[..|edits| - 1]) + e.replacement + text[e.end..]
  }

  /** How much the edits lengthen the text (negative when they shorten it). */
  function Delta(edits: seq<Edit>): int {
    if edits == [] then 0
    else
      var e := edits[|edits| - 1];
      Delta(edits[..|edits| - 1]) + |e.replacement| - (e.end - e.start)
  }

  lemma {:induction false} RewriteLength(text: string, edits: seq<Edit>)
    requires EditsFit(edits, |text|)
    ensures |Rewrite(text, edits)| == |text| + Delta(edits)
    decreases |edits|
  {
    if edits != [] {
      var e := edits[|edits| - 1];
      RewriteLength(text[..e.start], edits[..|edits| - 1]);
    }
  }

  /** Text after the last edit is carried over untouched. */
  lemma {:induction false} RewriteSplit(text: string, edits: seq<Edit>, m: nat)
    requires EditsFit(edits, m) && m <= |text|
    ensures EditsFit(edits, |text|)
    ensures Rewrite(text, edits) == Rewrite(text[..m], edits) + text[m..]
  {
    if edits != [] {
      var e := edits[|edits| - 1];
      assert text[..m][..e.start] == text[..e.start];
      assert text[..m][e.end..] + text[m..] == text[e.end..];
    }
  }

  /** Appending an edit that starts at or after `m`, where the earlier edits
      end. */
  lemma {:induction false} EditsFitSnoc(edits: seq<Edit>, m: nat, e: Edit)
    requires EditsFit(edits, m) && m <= e.start <= e.end
    ensures EditsFit(edits + [e], e.end)
    ensures Delta(edits + [e]) == Delta(edits) + |e.replacement| - (e.end - e.start)
  {
    var all := edits + [e];
    assert all[|all| - 1] == e && all[..|all| - 1] == edits;
  }

  /** Just before an edit is applied, the span it replaces sits `Delta`
      characters further on and still holds the original characters; putting
      the replacement there gives the rewrite with that edit. */
  lemma {:induction false} ReplacedWindow(text: string, edits: seq<Edit>, m: nat, e: Edit)
    requires EditsFit(edits, m) && m <= e.start <= e.end <= |text|
    ensures EditsFit(edits, |text|) && EditsFit(edits + [e], |text|)
    ensures var r := Rewrite(text, edits);
      var lo, hi := e.start + Delta(edits), e.end + Delta(edits);
      && 0 <= lo <= hi <= |r|
      && r[lo..hi] == text[e.start..e.end]
      && r[..lo] + e.replacement + r[hi..] == Rewrite(text, edits + [e])
  {
    EditsFitSnoc(edits, m, e);
    RewriteSplit(text, edits, e.start);
    RewriteLength(text[..e.start], edits);
    var r := Rewrite(text, edits);
    var prefix := Rewrite(text[..e.start], edits);
    var lo, hi := e.start + Delta(edits), e.end + Delta(edits);
    assert r == prefix + text[e.start..];
    assert r[..lo] == prefix;
    assert r[hi..] == text[e.end..];
    var all := edits + [e];
    assert all[|all| - 1] == e && all[..|all| - 1] == edits;
    var c := Correction(Slice(text, e.start, e.end), e.replacement, e.start + Delta(edits));
    assert CorrectionsOf(text, all) == CorrectionsOf(text, edits) + [c];
  }

  /** The start of the `i`-th gap between edits, and its end. */
  function GapStart(edits: seq<Edit>, i: nat): nat
    requires i <= |edits|
  {
    if i == 0 then 0 else edits[i - 1].end
  }

  function GapEnd(edits: seq<Edit>, i: nat, n: nat): nat
    requires i <= |edits|
  {
    if i == |edits| then n else edits[i].start
  }

  /** The rewrite of the text up to the `i`-th gap's end by the edits before
      it is a prefix of the whole rewrite. */
  lemma {:induction false} RewritePrefix(text: string, edits: seq<Edit>, i: nat)
    requires EditsFit(edits, |text|) && i <= |edits|
    ensures GapEnd(edits, i, |text|) <= |text|
    ensures EditsFit(edits[..i], GapEnd(edits, i, |text|))
    ensures var p := Rewrite(text[..GapEnd(edits, i, |text|)], edits[..i]);
      |p| <= |Rewrite(text, edits)| && Rewrite(text, edits)[..|p|] == p
    decreases |edits|
  {
    if i == |edits| {
      assert edits[..i] == edits && text[..|text|] == text;
    } else {
      var n := |edits| - 1;
      var e := edits[n];
      var init := edits[..n];
      var whole := Rewrite(text, edits);
      var front := Rewrite(text[..e.start], init);
      assert whole == front + e.replacement + text[e.end..];
      if i == n {
        assert edits[..i] == init;
      } else {
        RewritePrefix(text[..e.start], init, i);
        assert init[..i] == edits[..i];
        assert init[i] == edits[i];
        var g := GapEnd(edits, i, |text|);
        assert text[..e.start][..g] == text[..g];
        var p := Rewrite(text[..g], edits[..i]);
        assert front[..|p|] == p;
        assert whole[..|front|] == front;
      }
    }
  }

  /** The edits before the `i`-th gap fit up to where the gap starts. */
  lemma {:induction false} GapFits(text: string, edits: seq<Edit>, i: nat)
    requires EditsFit(edits, |text|) && i <= |edits|
    ensures GapStart(edits, i) <= GapEnd(edits, i, |text|) <= |text|
    ensures EditsFit(edits[..i], GapStart(edits, i))
  {
    RewritePrefix(text, edits, i);
    if i > 0 {
      EditsFitOrdered(edits, |text|, i - 1);
      var pre := edits[..i];
      assert pre[i - 1] == edits[i - 1];
      assert pre[..i - 1] == edits[..i - 1];
    }
  }

  /** Text after the last edit moves by their `Delta`. */
  lemma {:induction false} RewriteKeepsTail(t: string, pre: seq<Edit>, lo: nat, j: nat)
    requires EditsFit(pre, lo) && lo <= j < |t|
    ensures EditsFit(pre, |t|)
    ensures 0 <= j + Delta(pre) < |Rewrite(t, pre)|
    ensures Rewrite(t, pre)[j + Delta(pre)] == t[j]
  {
    RewriteSplit(t, pre, lo);
    RewriteLength(t[..lo], pre);
    var front := Rewrite(t[..lo], pre);
    assert Rewrite(t, pre) == front + t[lo..];
    assert t[lo..][j - lo] == t[j];
  }

  /** Text outside every replaced span is unchanged: a character in the
      `i`-th gap moves by the `Delta` of the edits before it. */
  lemma {:induction false} RewriteKeepsGaps(text: string, edits: seq<Edit>, i: nat, j: nat)
    requires EditsFit(edits, |text|) && i <= |edits|
    requires GapStart(edits, i) <= j < GapEnd(edits, i, |text|)
    ensures j < |text|
    ensures 0 <= j + Delta(edits[..i]) < |Rewrite(text, edits)|
    ensures Rewrite(text, edits)[j + Delta(edits[..i])] == text[j]
  {
    GapFits(text, edits, i);
    RewritePrefix(text, edits, i);
    var t := text[..GapEnd(edits, i, |text|)];
    var pre := edits[..i];
    RewriteKeepsTail(t, pre, GapStart(edits, i), j);
    assert t[j] == text[j];
    PrefixAgrees(Rewrite(text, edits), Rewrite(t, pre), j + Delta(pre));
  }

  lemma {:induction false} PrefixAgrees(whole: string, p: string, d: nat)
    requires |p| <= |whole| && whole[..|p|] == p && d < |p|
    ensures whole[d] == p[d]
  {
    assert whole[..|p|][d] == whole[d];
  }

  /** The edit the auto-corrector plans for one analysed word, given the
      suggestions for it: a word that is not in the dictionary and has a
      suggestion is replaced by the first one. */
  function EditFor(result: Analysis, suggestions: seq<RouteSuggestion>): seq<Edit> {
    if !result.isCorrect && suggestions != [] then [Edit(result.start, result.end, suggestions[0].word)] else []
  }

  /** The single best suggestion for each analysed word. */
  function FirstSuggestions(results: seq<Analysis>, wordsMap: OrderedMap<string, WordInfo>)
    : (r: seq<seq<RouteSuggestion>>)
    requires wordsMap.Valid()
    ensures |r| == |results|
  {
    seq(|results|, k requires 0 <= k < |results| => Suggestions(results[k].word, wordsMap, 1))
  }

  /** The edits planned for the first `k` analysed words, left to right. */
  function EditsOf(results: seq<Analysis>, suggested: seq<seq<RouteSuggestion>>, k: nat): seq<Edit>
    requires k <= |results| == |suggested|
  {
    if k == 0 then [] else EditsOf(results, suggested, k - 1) + EditFor(results[k - 1], suggested[k - 1])
  }

  function PlannedEdits(text: string, wordsMap: OrderedMap<string, WordInfo>): seq<Edit>
    requires wordsMap.Valid()
  {
    var results := Analyze(text, wordsMap);
    EditsOf(results, FirstSuggestions(results, wordsMap), |results|)
  }

  /** Exactly the words' own edits are made: an edit is planned for the
      first `k` words if and only if it is planned for one of them. */
  lemma {:induction false} EditsOfExactly(
    results: seq<Analysis>, suggested: seq<seq<RouteSuggestion>>, k: nat, e: Edit)
    requires k <= |results| == |suggested|
    ensures e in EditsOf(results, suggested, k) <==>
      exists i :: 0 <= i < k && e in EditFor(results[i], suggested[i])
  {
    if k > 0 {
      EditsOfExactly(results, suggested, k - 1, e);
    }
  }

  /** Every word outside the dictionary that has a suggestion is replaced
      by its first suggestion, in place of its own span. */
  lemma {:induction false} IncorrectWordReplaced(text: string, wordsMap: OrderedMap<string, WordInfo>, k: nat)
    requires wordsMap.Valid()
    requires k < |Analyze(text, wordsMap)|
    requires !Analyze(text, wordsMap)[k].isCorrect
    requires Suggestions(Analyze(text, wordsMap)[k].word, wordsMap, 1) != []
    ensures var a := Analyze(text, wordsMap)[k];
      Edit(a.start, a.end, Suggestions(a.word, wordsMap, 1)[0].word) in PlannedEdits(text, wordsMap)
  {
    var results := Analyze(text, wordsMap);
    var suggested: seq<seq<RouteSuggestion>> := FirstSuggestions(results, wordsMap);
    var a := results[k];
    var e := Edit(a.start, a.end, suggested[k][0].word);
    assert e in EditFor(results[k], suggested[k]);
    EditsOfExactly(results, suggested, |results|, e);
  }

  /** Every planned edit replaces a word outside the dictionary by its
      first suggestion. */
  lemma {:induction false} PlannedEditsCorrectOnly(text: string, wordsMap: OrderedMap<string, WordInfo>, e: Edit)
    requires wordsMap.Valid()
    requires e in PlannedEdits(text, wordsMap)
    ensures exists k :: (0 <= k < |Analyze(text, wordsMap)|
      && !Analyze(text, wordsMap)[k].isCorrect
      && e.start == Analyze(text, wordsMap)[k].start
      && e.end == Analyze(text, wordsMap)[k].end
      && Suggestions(Analyze(text, wordsMap)[k].word, wordsMap, 1) != []
      && e.replacement == Suggestions(Analyze(text, wordsMap)[k].word, wordsMap, 1)[0].word)
  {
    var results := Analyze(text, wordsMap);
    var suggested: seq<seq<RouteSuggestion>> := FirstSuggestions(results, wordsMap);
    var k := EditOrigin(results, suggested, e);
    assert suggested[k] == Suggestions(results[k].word, wordsMap, 1);
  }

  /** The word a planned edit comes from. */
  lemma {:induction false} EditOrigin(results: seq<Analysis>, suggested: seq<seq<RouteSuggestion>>, e: Edit)
    returns (k: nat)
    requires |results| == |suggested|
    requires e in EditsOf(results, suggested, |results|)
    ensures k < |results| && !results[k].isCorrect && suggested[k] != []
    ensures e == Edit(results[k].start, results[k].end, suggested[k][0].word)
  {
    EditsOfExactly(results, suggested, |results|, e);
    k :| 0 <= k < |results| && e in EditFor(results[k], suggested[k]);
  }

  /** One entry of the auto-corrector's report. */
  datatype Correction = Correction(original: string, corrected: string, position: int)

  /** `text[start..end)`, or "" when that is not a span of the text. */
  function Slice(text: string, start: nat, end: nat): string {
    if start <= end <= |text| then text[start..end] else ""
  }

  /** The report for a sequence of edits: the replaced characters, the
      replacement and the start shifted by the edits before. */
  function CorrectionsOf(text: string, edits: seq<Edit>): (r: seq<Correction>)
    ensures |r| == |edits|
  {
    if edits == [] then []
    else
      var e := edits[|edits| - 1];
      var init := edits[..|edits| - 1];
      CorrectionsOf(text, init) + [Correction(Slice(text, e.start, e.end), e.replacement, e.start + Delta(init))]
  }

  /** Appending an edit adds its report entry. */
  lemma {:induction false} CorrectionsSnoc(text: string, edits: seq<Edit>, e: Edit)
    ensures CorrectionsOf(text, edits + [e])
      == CorrectionsOf(text, edits) + [Correction(Slice(text, e.start, e.end), e.replacement, e.start + Delta(edits))]
  {
    var all := edits + [e];
    assert all[|all| - 1] == e && all[..|all| - 1] == edits;
    var c := Correction(Slice(text, e.start, e.end), e.replacement, e.start + Delta(edits));
    assert CorrectionsOf(text, all) == CorrectionsOf(text, edits) + [c];
  }

  /** Where the previous word ends: edits for words before `k` end by it. */
  function EndBefore(results: seq<Analysis>, k: nat): nat
    requires k <= |results|
  {
    if k == 0 then 0 else results[k - 1].end
  }

  /** The planned edits for words in order fit the text, in order. */
  lemma {:induction false} EditsOfFit(text: string, results: seq<Analysis>, suggested: seq<seq<RouteSuggestion>>, k: nat)
    requires k <= |results| == |suggested|
    requires forall i :: 0 <= i < |results| ==> results[i].start < results[i].end <= |text|
    requires forall i :: 0 < i < |results| ==> results[i - 1].end < results[i].start
    ensures EditsFit(EditsOf(results, suggested, k), EndBefore(results, k))
  {
    if k > 0 {
      EditsOfFit(text, results, suggested, k - 1);
      var r := results[k - 1];
      var edits := EditsOf(results, suggested, k - 1);
      if EditFor(r, suggested[k - 1]) != [] {
        EditsFitSnoc(edits, EndBefore(results, k - 1), EditFor(r, suggested[k - 1])[0]);
      } else {
        assert EditsOf(results, suggested, k) == edits;
        EditsFitWeaken(edits, EndBefore(results, k - 1), r.end);
      }
    }
  }

  /** The planned edits of a text fit it, in order. */
  lemma {:induction false} PlannedEditsFit(text: string, wordsMap: OrderedMap<string, WordInfo>)
    requires wordsMap.Valid()
    ensures EditsFit(PlannedEdits(text, wordsMap), |text|)
  {
    var results := Analyze(text, wordsMap);
    forall i | 0 <= i < |results| ensures results[i].start < results[i].end <= |text| {
      AnalyzeSpan(text, wordsMap, i);
    }
    forall i | 0 < i < |results| ensures results[i - 1].end < results[i].start {
      AnalyzeSpan(text, wordsMap, i);
    }
    var suggested: seq<seq<RouteSuggestion>> := FirstSuggestions(results, wordsMap);
    EditsOfFit(text, results, suggested, |results|);
    if results != [] {
      AnalyzeSpan(text, wordsMap, |results| - 1);
    }
    EditsFitWeaken(PlannedEdits(text, wordsMap), EndBefore(results, |results|), |text|);
  }

  /** Applying one word's suggestions: when the word is not in the
      dictionary and has a suggestion above the threshold, the running text
      gets the replacement in the shifted window and the report one entry. */
  method ApplySuggestion(text: string, result: Analysis, suggestions: seq<RouteSuggestion>,
                         ghost edits: seq<Edit>, ghost before: nat,
                         correctedText: string, offset: int, correctionCount: nat, corrections: seq<Correction>)
    returns (ghost edits': seq<Edit>, correctedText': string, offset': int,
             correctionCount': nat, corrections': seq<Correction>)
    requires !result.isCorrect
    requires suggestions != [] ==> suggestions[0].confidence > 75
    requires EditsFit(edits, before) && before <= result.start < result.end <= |text|
    requires text[result.start..result.end] == result.word
    requires EditsFit(edits, |text|)
    requires correctedText == Rewrite(text, edits) && offset == Delta(edits)
    requires corrections == CorrectionsOf(text, edits) && correctionCount == |corrections|
    ensures edits' == edits + EditFor(result, suggestions)
    ensures EditsFit(edits', result.end) && EditsFit(edits', |text|)
    ensures correctedText' == Rewrite(text, edits') && offset' == Delta(edits')
    ensures corrections' == CorrectionsOf(text, edits') && correctionCount' == |corrections'|
  {
    if |suggestions| > 0 && suggestions[0].confidence > 75 {
      edits', correctedText', offset', correctionCount', corrections' :=
        ReplaceWord(text, result, suggestions[0].word, edits, before,
                    correctedText, offset, correctionCount, corrections);
    } else {
      EditsFitWeaken(edits, before, result.end);
      edits', correctedText', offset', correctionCount', corrections' :=
        edits, correctedText, offset, correctionCount, corrections;
    }
  }

  /** The replacement itself: the word's window, shifted by `offset`, gets
      the suggestion, and the report records the word at its shifted start. */
  method ReplaceWord(text: string, result: Analysis, suggestion: string,
                     ghost edits: seq<Edit>, ghost before: nat,
                     correctedText: string, offset: int, correctionCount: nat, corrections: seq<Correction>)
    returns (ghost edits': seq<Edit>, correctedText': string, offset': int,
             correctionCount': nat, corrections': seq<Correction>)
    requires EditsFit(edits, before) && before <= result.start < result.end <= |text|
    requires text[result.start..result.end] == result.word
    requires correctedText == Rewrite(text, edits) && offset == Delta(edits)
    requires corrections == CorrectionsOf(text, edits) && correctionCount == |corrections|
    ensures edits' == edits + [Edit(result.start, result.end, suggestion)]
    ensures EditsFit(edits', result.end) && EditsFit(edits', |text|)
    ensures correctedText' == Rewrite(text, edits') && offset' == Delta(edits')
    ensures corrections' == CorrectionsOf(text, edits') && correctionCount' == |corrections'|
  {
    var e := Edit(result.start, result.end, suggestion);
    ReplacedWindow(text, edits, before, e);
    EditsFitSnoc(edits, before, e);
    CorrectionsSnoc(text, edits, e);
    var originalStart := result.start + offset;
    var originalEnd := result.end + offset;
    var prefix := correctedText[..originalStart];
    var suffix := correctedText[originalEnd..];
    correctedText' := prefix + suggestion + suffix;
    assert correctedText' == Rewrite(text, edits + [e]);
    offset' := offset + |suggestion| - |result.word|;
    correctionCount' := correctionCount + 1;
    assert Slice(text, e.start, e.end) == result.word;
    corrections' := corrections + [Correction(result.word, suggestion, originalStart)];
    edits' := edits + [e];
  }

  /** One turn of the auto-correct loop: only a word outside the dictionary
      asks for a suggestion. */
  method CorrectWord(text: string, wordsMap: OrderedMap<string, WordInfo>, result: Analysis,
                     ghost edits: seq<Edit>, ghost before: nat,
                     correctedText: string, offset: int, correctionCount: nat, corrections: seq<Correction>)
    returns (ghost edits': seq<Edit>, correctedText': string, offset': int,
             correctionCount': nat, corrections': seq<Correction>)
    requires wordsMap.Valid()
    requires EditsFit(edits, before) && before <= result.start < result.end <= |text|
    requires text[result.start..result.end] == result.word
    requires EditsFit(edits, |text|)
    requires correctedText == Rewrite(text, edits) && offset == Delta(edits)
    requires corrections == CorrectionsOf(text, edits) && correctionCount == |corrections|
    ensures edits' == edits + EditFor(result, Suggestions(result.word, wordsMap, 1))
    ensures EditsFit(edits', result.end) && EditsFit(edits', |text|)
    ensures correctedText' == Rewrite(text, edits') && offset' == Delta(edits')
    ensures corrections' == CorrectionsOf(text, edits') && correctionCount' == |corrections'|
  {
    if !result.isCorrect {
      var suggestions := FindSuggestions(result.word, wordsMap, 1);
      SuggestionsConfidence(result.word, wordsMap, 1);
      edits', correctedText', offset', correctionCount', corrections' :=
        ApplySuggestion(text, result, suggestions, edits, before,
                        correctedText, offset, correctionCount, corrections);
    } else {
      EditsFitWeaken(edits, before, result.end);
      edits', correctedText', offset', correctionCount', corrections' :=
        edits, correctedText, offset, correctionCount, corrections;
    }
  }

  /** `POST /auto-correct`: every planned edit is applied left to right in a
      running text, positions shifted by the length change `offset` of the
      edits before. The result is the rewrite of the text by all planned
      edits, its length changes by their `Delta`, and the report has one
      correction per edit. */
  method AutoCorrect(text: string, wordsMap: OrderedMap<string, WordInfo>)
    returns (correctedText: string, correctionCount: nat, corrections: seq<Correction>)
    requires wordsMap.Valid()
    ensures EditsFit(PlannedEdits(text, wordsMap), |text|)
    ensures correctedText == Rewrite(text, PlannedEdits(text, wordsMap))
    ensures |correctedText| == |text| + Delta(PlannedEdits(text, wordsMap))
    ensures corrections == CorrectionsOf(text, PlannedEdits(text, wordsMap))
    ensures correctionCount == |corrections|
  {
    correctedText := text;
    correctionCount := 0;
    corrections := [];
    var results := AnalyzeText(text, wordsMap);
    ghost var suggested: seq<seq<RouteSuggestion>> := FirstSuggestions(results, wordsMap);
    var offset := 0;
    ghost var edits: seq<Edit> := [];
    for k := 0 to |results|
      invariant EndBefore(results, k) <= |text|
      invariant edits == EditsOf(results, suggested, k)
      invariant EditsFit(edits, EndBefore(results, k)) && EditsFit(edits, |text|)
      invariant correctedText == Rewrite(text, edits) && offset == Delta(edits)
      invariant corrections == CorrectionsOf(text, edits) && correctionCount == |corrections|
    {
      edits, correctedText, offset, correctionCount, corrections :=
        CorrectAt(text, wordsMap, results, suggested, k, edits,
                  correctedText, offset, correctionCount, corrections);
    }
    RewriteLength(text, edits);
  }

  /** The reply of `POST /auto-correct`: a 400 for a missing text, or the
      original and corrected texts with the corrections. */
  datatype AutoCorrectReply =
    | CorrectRefused(error: string)
    | AutoCorrected(originalText: string, correctedText: string, correctionCount: nat, corrections: seq<Correction>)

  /** `POST /auto-correct`: a missing, empty or non-string text is refused;
      any other text, whatever the dictionary holds, is rewritten by its
      planned edits. */
  method AutoCorrectRoute(text: Value, wordsMap: OrderedMap<string, WordInfo>) returns (r: AutoCorrectReply)
    requires wordsMap.Valid()
    ensures !IsNonEmptyString(text) <==> r == CorrectRefused(TextRequired)
    ensures r.AutoCorrected? ==>
      && r.originalText == text.s
      && EditsFit(PlannedEdits(text.s, wordsMap), |text.s|)
      && r.correctedText == Rewrite(text.s, PlannedEdits(text.s, wordsMap))
      && r.corrections == CorrectionsOf(text.s, PlannedEdits(text.s, wordsMap))
      && r.correctionCount == |r.corrections|
  {
    if !IsNonEmptyString(text) {
      return CorrectRefused(TextRequired);
    }
    var correctedText, correctionCount, corrections := AutoCorrect(text.s, wordsMap);
    r := AutoCorrected(text.s, correctedText, correctionCount, corrections);
  }

  /** The `k`-th turn of the auto-correct loop, stated over the planned
      edits of the first `k` words. */
  method CorrectAt(text: string, wordsMap: OrderedMap<string, WordInfo>, results: seq<Analysis>,
                   ghost suggested: seq<seq<RouteSuggestion>>, k: nat, ghost edits: seq<Edit>,
                   correctedText: string, offset: int, correctionCount: nat, corrections: seq<Correction>)
    returns (ghost edits': seq<Edit>, correctedText': string, offset': int,
             correctionCount': nat, corrections': seq<Correction>)
    requires wordsMap.Valid()
    requires results == Analyze(text, wordsMap) && suggested == FirstSuggestions(results, wordsMap)
    requires k < |results|
    requires edits == EditsOf(results, suggested, k)
    requires EditsFit(edits, EndBefore(results, k)) && EditsFit(edits, |text|)
    requires correctedText == Rewrite(text, edits) && offset == Delta(edits)
    requires corrections == CorrectionsOf(text, edits) && correctionCount == |corrections|
    ensures EndBefore(results, k + 1) <= |text|
    ensures edits' == EditsOf(results, suggested, k + 1)
    ensures EditsFit(edits', EndBefore(results, k + 1)) && EditsFit(edits', |text|)
    ensures correctedText' == Rewrite(text, edits') && offset' == Delta(edits')
    ensures corrections' == CorrectionsOf(text, edits') && correctionCount' == |corrections'|
  {
    WordAt(text, wordsMap, results, suggested, k);
    edits', correctedText', offset', correctionCount', corrections' :=
      CorrectWord(text, wordsMap, results[k], edits, EndBefore(results, k),
                  correctedText, offset, correctionCount, corrections);
  }

  /** The `k`-th analysed word lies after the words before it, and its
      planned edit extends theirs. */
  lemma {:induction false} WordAt(text: string, wordsMap: OrderedMap<string, WordInfo>, results: seq<Analysis>,
               suggested: seq<seq<RouteSuggestion>>, k: nat)
    requires wordsMap.Valid()
    requires results == Analyze(text, wordsMap) && suggested == FirstSuggestions(results, wordsMap)
    requires k < |results|
    ensures EndBefore(results, k) <= results[k].start < results[k].end <= |text|
    ensures EndBefore(results, k + 1) == results[k].end
    ensures text[results[k].start..results[k].end] == results[k].word
    ensures EditsOf(results, suggested, k + 1) ==
      EditsOf(results, suggested, k) + EditFor(results[k], Suggestions(results[k].word, wordsMap, 1))
  {
    AnalyzeSpan(text, wordsMap, k);
  }
}
