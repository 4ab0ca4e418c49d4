/** The deterministic pieces of the server's own routes: its script
    detector, the "text is required" guard, the choice of source and target
    alphabet in the transliteration routes, the word-by-word alignment of
    `/api/spell-check`, and the size checks of the batch spell-check. The
    language model's corrections enter as a parameter. */
module Server {
  import opened Wrappers
  import opened Text
  import opened Runs
  import opened Scripts
  import SpellCheckRoute

  // ---------------------------------------------------------------------
  // detectScript

  /** The server's detector. Its classes are those of the spell-check
      route's detector (the upper-case letters it lists add nothing under
      the `i` flag), but a text without letters of either class is
      "unknown". */
  function DetectScript(text: string): (r: Script)
  {
    var cyrillic := Count(text, SpellCheckRoute.IsCyrillicClass);
    var latin := Count(text, SpellCheckRoute.IsLatinClass);
    if cyrillic + latin == 0 then Unknown
    else if cyrillic > latin then Cyrillic
    else if latin > cyrillic then Latin
    else Mixed
  }

  /** The detector's answer against the two letter counts: "unknown"
      exactly when there is no letter, otherwise the strictly larger count
      wins and a tie is "mixed". */
  lemma {:induction false} DetectScriptCounts(text: string)
    ensures var r := DetectScript(text);
      var cyrillic, latin := Count(text, SpellCheckRoute.IsCyrillicClass), Count(text, SpellCheckRoute.IsLatinClass);
      && (r == Unknown <==> cyrillic == 0 && latin == 0)
      && (r == Cyrillic <==> cyrillic > latin)
      && (r == Latin <==> latin > cyrillic)
      && (r == Mixed <==> cyrillic == latin && cyrillic > 0)
  {
  }

  /** The server's detector agrees with the spell-check route's on every
      text with a letter; on a text without letters the route says "mixed"
      and the server "unknown". */
  lemma {:induction false} DetectScriptAgreesWithRoute(text: string)
    ensures DetectScript(text) != Unknown ==> DetectScript(text) == SpellCheckRoute.DetectScript(text)
    ensures DetectScript(text) == Unknown ==> SpellCheckRoute.DetectScript(text) == Mixed
  {
  }

  /** Digits and punctuation are no letters. */
  lemma {:induction false} NoLettersUnknown()
    ensures DetectScript("2024!") == Unknown
  {
    assert Count("2024!", SpellCheckRoute.IsCyrillicClass) == 0;
    assert Count("2024!", SpellCheckRoute.IsLatinClass) == 0;
  }

  /** The dotless `ı` is a Latin letter. */
  lemma {:induction false} DotlessILatin()
    ensures DetectScript("ı") == Latin
  {
    assert Count("ı", SpellCheckRoute.IsLatinClass) == 1;
  }

  // ---------------------------------------------------------------------
  // The text guard

  /** The outcome of `if (!text || !text.trim())`: the text goes on, a 400
      "Text is required", or, for a truthy value that is not a string and so
      has no `trim` method, a thrown error the route answers with 500. */
  datatype Guarded = Proceed(text: string) | TextRequired | ServerError

  function GuardText(text: Value): (r: Guarded)
    ensures r.Proceed? <==> text.Str? && Trim(text.s) != ""
    ensures r.Proceed? ==> r.text == text.s
    ensures r == TextRequired <==> !Truthy(text) || (text.Str? && Trim(text.s) == "")
  {
    if !Truthy(text) then TextRequired
    else if !text.Str? then ServerError
    else if Trim(text.s) == "" then TextRequired
    else Proceed(text.s)
  }

  // ---------------------------------------------------------------------
  // Source and target alphabets

  /** What `/api/transliterate` does once the text is accepted: a text
      already in the requested alphabet comes back as it is; any other is
      sent to the language model, towards Latin exactly when "latin" was
      asked for. */
  datatype TransliteratePlan =
    | AlreadyThere(original: string, converted: string, from: Script, to: Value)
    | AskModel(text: string, toLatin: bool)

  function PlanTransliteration(text: string, targetScript: Value): (r: TransliteratePlan)
    ensures r.AlreadyThere? <==> targetScript == Str(DetectScript(text).Name())
    ensures r.AlreadyThere? ==> r.original == text && r.converted == text && r.from == DetectScript(text)
    ensures r.AskModel? ==> r.text == text && (r.toLatin <==> targetScript == Str("latin"))
  {
    var sourceScript := DetectScript(text);
    if targetScript == Str(sourceScript.Name()) then AlreadyThere(text, text, sourceScript, targetScript)
    else AskModel(text, targetScript == Str("latin"))
  }

  /** A text without letters asked for "unknown", and a tied text asked for
      "mixed", also come back unchanged. */
  lemma {:induction false} UnchangedForOddTargets(text: string)
    ensures DetectScript(text) == Unknown ==> PlanTransliteration(text, Str("unknown")).AlreadyThere?
    ensures DetectScript(text) == Mixed ==> PlanTransliteration(text, Str("mixed")).AlreadyThere?
  {
  }

  /** `/api/auto-transliterate`: Latin for a Cyrillic text, Cyrillic for
      every other. */
  function AutoTarget(text: string): (r: Script)
    ensures r == Latin || r == Cyrillic
  {
    if DetectScript(text) == Cyrillic then Latin else Cyrillic
  }

  /** The automatic target is Latin exactly when the text has strictly more
      Cyrillic letters, and it is never the detected alphabet, so the
      automatic route never takes the unchanged shortcut of
      `/api/transliterate`. */
  lemma {:induction false} AutoTargetDiffers(text: string)
    ensures AutoTarget(text) == Latin <==>
      Count(text, SpellCheckRoute.IsCyrillicClass) > Count(text, SpellCheckRoute.IsLatinClass)
    ensures AutoTarget(text) != DetectScript(text)
    ensures PlanTransliteration(text, Str(AutoTarget(text).Name())) ==
      AskModel(text, AutoTarget(text) == Latin)
  {
    var t := AutoTarget(text);
    assert t.Name() != DetectScript(text).Name();
  }

  // ---------------------------------------------------------------------
  // Splitting into words

  predicate IsNonSpace(c: char) { !IsSpace(c) }

  /** `s.trim().split(/\s+/)`: the maximal runs of non-space characters of
      the trimmed text. A text that is empty once trimmed splits into one
      empty word. */
  function SplitWords(s: string): seq<string>
  {
    var t := Trim(s);
    if t == "" then [""] else RunWords(t, IsNonSpace)
  }

  /** A text with a non-space character splits into at least one word, and
      every word is non-empty and holds no white space. */
  lemma {:induction false} SplitWordsShape(s: string)
    requires Trim(s) != ""
    ensures |SplitWords(s)| >= 1
    ensures forall k :: 0 <= k < |SplitWords(s)| ==> SplitWords(s)[k] != "" && NoSpace(SplitWords(s)[k])
  {
    RunWordsShape(Trim(s), IsNonSpace);
  }

  // ---------------------------------------------------------------------
  // Word alignment of /api/spell-check

  /** `/[.,!?;:"'()]/` */
  predicate IsStripped(c: char) {
    c == '.' || c == ',' || c == '!' || c == '?' || c == ';' || c == ':' || c == '"' || c == '\'' || c == '(' || c == ')'
  }

  predicate IsKept(c: char) { !IsStripped(c) }

  /** `w.replace(/[.,!?;:"'()]/g, "")` */
  function Clean(w: string): (r: string)
    ensures forall i :: 0 <= i < |r| ==> !IsStripped(r[i])
  {
    KeepOnly(w, IsKept)
  }

  /** `correctedWords[i] || originalWord`: the corrected word at the same
      index, unless it is missing or empty. */
  function CorrectedAt(corrected: seq<string>, i: nat, original: string): string {
    if i < |corrected| && corrected[i] != "" then corrected[i] else original
  }

  /** The position of word `i` in the reply: the length of the words before
      it joined by single spaces, plus one for the separating space when
      that join is not empty. */
  function WordStart(words: seq<string>, i: nat): nat
    requires i <= |words|
  {
    var before := Join(words[..i], " ");
    |before| + (if before != "" then 1 else 0)
  }

  /** One entry of `results`: the cleaned original word, whether it matches
      its corrected word, the suggestion, and its span. */
  datatype WordResult = WordResult(word: string, isCorrect: bool, suggestions: seq<string>, start: nat, end: nat)

  /** One entry of `errors`: a wrong word with its replacements, each at
      similarity 95. */
  datatype SimilarWord = SimilarWord(word: string, similarity: nat)
  datatype SpellError = SpellError(mistakeWord: string, similarWords: seq<SimilarWord>)

  /** The entry for word `i`: correct when the cleaned words agree up to
      case, in which case there is no suggestion; otherwise the cleaned
      corrected word is the one suggestion. The span covers the original
      word, punctuation included. */
  function ResultFor(words: seq<string>, corrected: seq<string>, i: nat): WordResult
    requires i < |words|
  {
    var cleanOriginal := Clean(words[i]);
    var cleanCorrected := Clean(CorrectedAt(corrected, i, words[i]));
    var isCorrect := ToLower(cleanOriginal) == ToLower(cleanCorrected);
    var start := WordStart(words, i);
    WordResult(cleanOriginal, isCorrect, if isCorrect then [] else [cleanCorrected], start, start + |words[i]|)
  }

  /** The `errors` entry of a result. */
  function ErrorOf(r: WordResult): SpellError {
    SpellError(r.word, seq(|r.suggestions|, k requires 0 <= k < |r.suggestions| => SimilarWord(r.suggestions[k], 95)))
  }

  lemma {:induction false} ErrorOfIncorrect(r: WordResult)
    requires |r.suggestions| == 1
    ensures ErrorOf(r) == SpellError(r.word, [SimilarWord(r.suggestions[0], 95)])
  {
  }

  /** The `errors` entries of the incorrect results, in order. */
  function ErrorsOf(results: seq<WordResult>): seq<SpellError> {
    if results == [] then []
    else
      var last := results[|results| - 1];
      ErrorsOf(results[..|results| - 1]) + (if last.isCorrect then [] else [ErrorOf(last)])
  }

  lemma {:induction false} ErrorsOfSnoc(results: seq<WordResult>, r: WordResult)
    ensures ErrorsOf(results + [r]) == ErrorsOf(results) + (if r.isCorrect then [] else [ErrorOf(r)])
  {
    assert (results + [r])[..|results|] == results;
  }

  /** The number of correct results. */
  function CorrectCount(results: seq<WordResult>): nat {
    if results == [] then 0
    else CorrectCount(results[..|results| - 1]) + (if results[|results| - 1].isCorrect then 1 else 0)
  }

  /** Every result is either correct or has an `errors` entry, so
      `totalWords - errors.length` counts the correct words. */
  lemma {:induction false} ErrorsPartition(results: seq<WordResult>)
    ensures |ErrorsOf(results)| + CorrectCount(results) == |results|
    ensures ErrorsOf(results) == [] <==> forall k :: 0 <= k < |results| ==> results[k].isCorrect
  {
    if results != [] {
      var init := results[..|results| - 1];
      ErrorsPartition(init);
      assert forall k :: 0 <= k < |init| ==> init[k] == results[k];
    }
  }

  /** One pass of the alignment loop: the result for word `i` and, when it
      is wrong, its `errors` entry. */
  method CompareWord(originalWords: seq<string>, correctedWords: seq<string>, i: nat)
    returns (result: WordResult, error: seq<SpellError>)
    requires i < |originalWords|
    ensures result == ResultFor(originalWords, correctedWords, i)
    ensures error == if result.isCorrect then [] else [ErrorOf(result)]
  {
    var originalWord := originalWords[i];
    var correctedWord := if i < |correctedWords| && correctedWords[i] != "" then correctedWords[i] else originalWord;
    var cleanOriginal := Clean(originalWord);
    var cleanCorrected := Clean(correctedWord);
    var beforeText := Join(originalWords[..i], " ");
    var wordStart := |beforeText| + (if beforeText != "" then 1 else 0);
    var wordEnd := wordStart + |originalWord|;
    var isCorrect := ToLower(cleanOriginal) == ToLower(cleanCorrected);
    result := WordResult(cleanOriginal, isCorrect, if isCorrect then [] else [cleanCorrected], wordStart, wordEnd);
    error := [];
    if !isCorrect {
      ErrorOfIncorrect(result);
      error := [SpellError(cleanOriginal, [SimilarWord(cleanCorrected, 95)])];
    }
  }

  /** The alignment of `/api/spell-check`: the trimmed text and the model's
      corrected text are split into words, word `i` of the one is compared
      with word `i` of the other, and the counts are taken. */
  method AlignWords(text: string, correctedText: string)
    returns (results: seq<WordResult>, errors: seq<SpellError>, totalWords: nat, incorrectWords: nat, correctWords: int)
    ensures var words := SplitWords(text);
      && |results| == |words| == totalWords
      && (forall k :: 0 <= k < |words| ==> results[k] == ResultFor(words, SplitWords(correctedText), k))
      && errors == ErrorsOf(results)
      && incorrectWords == |errors|
      && correctWords == CorrectCount(results)
  {
    var originalWords := SplitWords(text);
    var correctedWords := SplitWords(correctedText);
    results := [];
    errors := [];
    for i := 0 to |originalWords|
      invariant |results| == i
      invariant forall k :: 0 <= k < i ==> results[k] == ResultFor(originalWords, correctedWords, k)
      invariant errors == ErrorsOf(results)
    {
      var result, error := CompareWord(originalWords, correctedWords, i);
      ErrorsOfSnoc(results, result);
      forall k | 0 <= k <= i
        ensures (results + [result])[k] == ResultFor(originalWords, correctedWords, k)
      {
        if k < i {
          assert (results + [result])[k] == results[k];
        }
      }
      results := results + [result];
      errors := errors + error;
    }
    totalWords := |originalWords|;
    incorrectWords := |errors|;
    ErrorsPartition(results);
    correctWords := totalWords - incorrectWords;
  }

  /** Word `i` of non-empty words starts after the lengths of the words
      before it plus one space each, and its span holds it in the words
      rejoined by single spaces. */
  lemma {:induction false} WordPositions(words: seq<string>, corrected: seq<string>, i: nat)
    requires i < |words|
    requires forall k :: 0 <= k < |words| ==> words[k] != ""
    ensures var r := ResultFor(words, corrected, i);
      && r.start == SumLengths(words[..i]) + i
      && r.end <= |Join(words, " ")|
      && Join(words, " ")[r.start..r.end] == words[i]
  {
    var before := Join(words[..i], " ");
    if i == 1 {
      assert words[..1] == [words[0]];
    } else if i > 1 {
      JoinLength(words[..i], " ");
    }
    if i > 0 {
      JoinLength(words[..i], " ");
      assert before != "";
    }
    var k := JoinContainsPart(words, " ", i);
  }

  /** A word the model's text lacks, or that only differs in case or in the
      stripped punctuation, is correct. */
  lemma {:induction false} MissingCorrectionIsCorrect(words: seq<string>, corrected: seq<string>, i: nat)
    requires i < |words|
    requires i >= |corrected| || corrected[i] == ""
    ensures ResultFor(words, corrected, i).isCorrect
    ensures ResultFor(words, corrected, i).suggestions == []
  {
  }

  /** "a  b" splits into "a" and "b". */
  lemma {:induction false} SplitTwoSpaces()
    ensures SplitWords("a  b") == ["a", "b"]
  {
    var t := "a  b";
    TrimOfTrimmed(t);
    assert FirstOut(t, 0, IsNonSpace) == 1;
    assert FirstIn(t, 1, IsNonSpace) == 3;
    assert FirstOut(t, 3, IsNonSpace) == 4;
    assert NextRun(t, 4, IsNonSpace) == None;
    assert RunsFrom(t, 3, IsNonSpace) == [Span(3, 4)];
    assert RunsFrom(t, 1, IsNonSpace) == [Span(3, 4)];
    assert AllRuns(t, IsNonSpace) == [Span(0, 1), Span(3, 4)];
    assert t[0..1] == "a" && t[3..4] == "b";
  }

  /** Positions are taken in the single-spaced text, not in the text as
      sent: in "a  b" the second word is reported at position 2, which in
      the text itself is a space. */
  lemma {:induction false} PositionsIgnoreRepeatedSpaces()
    ensures var words := SplitWords("a  b");
      |words| == 2 && ResultFor(words, words, 1).start == 2 && "a  b"[2] == ' '
  {
    SplitTwoSpaces();
    var words := ["a", "b"];
    assert words[..1] == ["a"];
  }

  /** The verdict ignores case and the stripped punctuation; a word the
      model changed gets exactly one suggestion, which differs from it in
      more than case. */
  lemma {:induction false} VerdictMeaning(words: seq<string>, corrected: seq<string>, i: nat)
    requires i < |words|
    ensures var r := ResultFor(words, corrected, i);
      && r.word == Clean(words[i])
      && (r.isCorrect <==> r.suggestions == [])
      && (!r.isCorrect ==> |r.suggestions| == 1 && ToLower(r.suggestions[0]) != ToLower(r.word))
      && (i < |corrected| && ToLower(Clean(corrected[i])) == ToLower(r.word) ==> r.isCorrect)
      && r.end - r.start == |words[i]|
  {
  }

  // ---------------------------------------------------------------------
  // Batch spell-check

  const TextsRequired := "Texts array is required"
  const TooManyTexts := "Maximum 10 texts allowed per batch"
  const MaxBatchTexts: nat := 10

  /** The checks of `/api/batch-spell-check` on `texts`: the error it is
      refused with, if any. */
  function BatchGuard(texts: Value): (r: Option<string>)
    ensures r.None? <==> texts.Arr? && 1 <= |texts.items| <= MaxBatchTexts
    ensures r == Some(TextsRequired) <==> !texts.Arr? || texts.items == []
  {
    if !Truthy(texts) || !texts.Arr? || |texts.items| == 0 then Some(TextsRequired)
    else if |texts.items| > MaxBatchTexts then Some(TooManyTexts)
    else None
  }
}
