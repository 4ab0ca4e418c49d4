/** The dictionary spell-check primitives: edit distance, the tokenizer,
    the word normaliser, distance-ranked suggestions, spell-checking a text
    against a word list and fuzzy search. */
module SpellCheckUtils {
  import opened Text
  import opened Runs
  import opened StableSort

  // ---------------------------------------------------------------------
  // Levenshtein distance

  function Min3(a: nat, b: nat, c: nat): (m: nat)
    ensures m <= a && m <= b && m <= c
    ensures m == a || m == b || m == c
  {
    if a <= b && a <= c then a else if b <= c then b else c
  }

  /** Edit distance with unit costs, by the recurrence the matrix is filled
      with: equal last characters take the diagonal; otherwise one more than
      the best of substitution, insertion and deletion. */
  function Dist(s: string, t: string): nat
    decreases |s| + |t|
  {
    if |s| == 0 then |t|
    else if |t| == 0 then |s|
    else if s[|s| - 1] == t[|t| - 1] then Dist(s[..|s| - 1], t[..|t| - 1])
    else 1 + Min3(Dist(s[..|s| - 1], t[..|t| - 1]), Dist(s, t[..|t| - 1]), Dist(s[..|s| - 1], t))
  }

  /** `levenshteinDistance(str1, str2)`: the full `(|str2|+1) × (|str1|+1)`
      matrix, row 0 and column 0 first, then row by row. */
  method LevenshteinDistance(str1: string, str2: string) returns (d: nat)
    ensures d == Dist(str1, str2)
  {
    var matrix := new nat[|str2| + 1, |str1| + 1];
    for i := 0 to |str2| + 1
      invariant forall i' :: 0 <= i' < i ==> matrix[i', 0] == i'
    {
      matrix[i, 0] := i;
    }
    for j := 0 to |str1| + 1
      invariant forall i' :: 0 < i' <= |str2| ==> matrix[i', 0] == i'
      invariant forall j' :: 0 <= j' < j ==> matrix[0, j'] == j'
    {
      matrix[0, j] := j;
    }
    for i := 1 to |str2| + 1
      invariant forall i', j' :: 0 <= i' < i && 0 <= j' <= |str1| ==>
        matrix[i', j'] == Dist(str2[..i'], str1[..j'])
      invariant forall i' :: i <= i' <= |str2| ==> matrix[i', 0] == i'
    {
      for j := 1 to |str1| + 1
        invariant forall i', j' :: 0 <= i' < i && 0 <= j' <= |str1| ==>
          matrix[i', j'] == Dist(str2[..i'], str1[..j'])
        invariant forall j' :: 0 <= j' < j ==> matrix[i, j'] == Dist(str2[..i], str1[..j'])
        invariant forall i' :: i < i' <= |str2| ==> matrix[i', 0] == i'
      {
        assert str2[..i][..i - 1] == str2[..i - 1];
        assert str1[..j][..j - 1] == str1[..j - 1];
        if str2[i - 1] == str1[j - 1] {
          matrix[i, j] := matrix[i - 1, j - 1];
        } else {
          matrix[i, j] := Min3(matrix[i - 1, j - 1], matrix[i, j - 1], matrix[i - 1, j]) + 1;
        }
      }
    }
    d := matrix[|str2|, |str1|];
    assert str2[..|str2|] == str2 && str1[..|str1|] == str1;
    DistSymmetric(str2, str1);
  }

  /** The distance does not depend on the argument order. */
  lemma {:induction false} DistSymmetric(s: string, t: string)
    ensures Dist(s, t) == Dist(t, s)
    decreases |s| + |t|
  {
    if |s| > 0 && |t| > 0 {
      var s', t' := s[..|s| - 1], t[..|t| - 1];
      DistSymmetric(s', t');
      if s[|s| - 1] != t[|t| - 1] {
        DistSymmetric(s, t');
        DistSymmetric(s', t);
      }
    }
  }

  /** Against the empty string the distance is the other string's length. */
  lemma {:induction false} DistEmpty(s: string)
    ensures Dist(s, "") == |s| && Dist("", s) == |s|
  {
  }

  /** The distance is zero exactly for equal strings. */
  lemma {:induction false} DistZero(s: string, t: string)
    ensures Dist(s, t) == 0 <==> s == t
    decreases |s| + |t|
  {
    if |s| > 0 && |t| > 0 {
      var s', t' := s[..|s| - 1], t[..|t| - 1];
      DistZero(s', t');
      assert s == s' + [s[|s| - 1]] && t == t' + [t[|t| - 1]];
    }
  }

  /** The distance is at least the difference in length and at most the
      longer length. */
  lemma {:induction false} DistBounds(s: string, t: string)
    ensures |s| - |t| <= Dist(s, t) && |t| - |s| <= Dist(s, t)
    ensures Dist(s, t) <= if |s| < |t| then |t| else |s|
    decreases |s| + |t|
  {
    if |s| > 0 && |t| > 0 {
      var s', t' := s[..|s| - 1], t[..|t| - 1];
      DistBounds(s', t');
      if s[|s| - 1] != t[|t| - 1] {
        DistBounds(s, t');
        DistBounds(s', t);
      }
    }
  }

  // ---------------------------------------------------------------------
  // Tokens and normalisation

  /** The Karakalpak letters other than the basic Cyrillic and Latin ones
      that both word classes list, in lower case. */
  predicate IsExtraLower(c: char) {
    || c == 'ә' || c == 'ğ' || c == 'ń' || c == 'ö' || c == 'ü' || c == 'ş' || c == 'ı'
    || c == 'ғ' || c == 'қ' || c == 'ң' || c == 'ө' || c == 'ү' || c == 'һ'
  }

  /** `/[\wәğqńöüşıĞQŃÖÜŞIа-яәғқңөүһ]+/gi`, the tokenizer's class: with the
      `i` flag the upper-case Cyrillic letters and `Ә Ғ Қ Ң Ө Ү Һ` match too
      (the dotless `ı` matches only itself). */
  predicate IsTokenChar(c: char) {
    || IsWordChar(c) || IsExtraLower(c) || ('а' <= c <= 'я') || ('А' <= c <= 'Я')
    || c == 'Ğ' || c == 'Ń' || c == 'Ö' || c == 'Ü' || c == 'Ş'
    || c == 'Ә' || c == 'Ғ' || c == 'Қ' || c == 'Ң' || c == 'Ө' || c == 'Ү' || c == 'Һ'
  }

  /** `[\wәğqńöüşıĞQŃÖÜŞIа-яәғқңөүһ]` without the `i` flag: the characters
      `normalizeWord` keeps. */
  predicate IsNormalChar(c: char) {
    || IsWordChar(c) || IsExtraLower(c) || ('а' <= c <= 'я')
    || c == 'Ğ' || c == 'Ń' || c == 'Ö' || c == 'Ü' || c == 'Ş'
  }

  /** One entry of `tokenizeText`'s result. */
  datatype Token = Token(word: string, originalWord: string, start: int, end: int)

  /** The token the tokenizer builds for a run. */
  function TokenOf(text: string, sp: Span): Token
    requires sp.start <= sp.end <= |text|
  {
    Token(ToLower(Word(text, sp)), Word(text, sp), sp.start, sp.end)
  }

  function Tokens(text: string): seq<Span> {
    AllRuns(text, IsTokenChar)
  }

  /** `tokenizeText`: the words of `text.match(...)`, each located with
      `indexOf` from the end of the previous one. The search always finds the
      word's own run, so the tokens are the runs of word characters, in
      order, each with its lower-case form. */
  method TokenizeText(text: string) returns (positions: seq<Token>)
    ensures |positions| == |Tokens(text)|
    ensures forall k :: 0 <= k < |positions| ==> positions[k] == TokenOf(text, Tokens(text)[k])
    ensures forall k :: 0 <= k < |positions| ==>
      && 0 <= positions[k].start < positions[k].end <= |text|
      && text[positions[k].start..positions[k].end] == positions[k].originalWord
      && positions[k].word == ToLower(positions[k].originalWord)
    ensures forall k :: 0 < k < |positions| ==> positions[k - 1].end < positions[k].start
  {
    var spans := Tokens(text);
    var words := seq(|spans|, k requires 0 <= k < |spans| => Word(text, spans[k]));
    positions := [];
    var lastIndex := 0;
    for k := 0 to |words|
      invariant |positions| == k
      invariant forall m :: 0 <= m < k ==> positions[m] == TokenOf(text, spans[m])
      invariant lastIndex == if k == 0 then 0 else spans[k - 1].end
    {
      var token := LocateToken(text, words[k], lastIndex, k);
      positions := positions + [token];
      lastIndex := token.end;
    }
    forall k | 0 <= k < |positions|
      ensures && 0 <= positions[k].start < positions[k].end <= |text|
              && text[positions[k].start..positions[k].end] == positions[k].originalWord
              && positions[k].word == ToLower(positions[k].originalWord)
              && (k > 0 ==> positions[k - 1].end < positions[k].start)
    {
      RunFacts(text, 0, IsTokenChar, k);
    }
  }

  /** One turn of the tokenizer: searching for the `k`-th word from the end
      of the word before finds that word's own run. */
  method LocateToken(text: string, word: string, lastIndex: nat, ghost k: nat) returns (token: Token)
    requires k < |Tokens(text)| && word == Word(text, Tokens(text)[k])
    requires lastIndex == if k == 0 then 0 else Tokens(text)[k - 1].end
    ensures token == TokenOf(text, Tokens(text)[k])
  {
    var index := IndexOf(text, word, lastIndex);
    IndexOfFindsRun(text, 0, IsTokenChar, k);
    token := Token(ToLower(word), word, index, index + |word|);
  }

  /** `normalizeWord`: lower case, trimmed, and stripped of every character
      outside the word class. */
  function NormalizeWord(word: string): (r: string)
    ensures forall i :: 0 <= i < |r| ==> IsNormalChar(r[i])
    ensures IsLowerCase(r)
    ensures NoSpace(r)
  {
    var lowered := Trim(ToLower(word));
    ToLowerIsLowerCase(word);
    KeepOnlyLowerCase(lowered, IsNormalChar);
    var r := KeepOnly(lowered, IsNormalChar);
    forall i | 0 <= i < |r| ensures !IsSpace(r[i]) {
      NormalCharNotSpace(r[i]);
    }
    r
  }

  lemma {:induction false} NormalCharNotSpace(c: char)
    requires IsNormalChar(c)
    ensures !IsSpace(c)
  {
  }

  lemma {:induction false} NormalizeWordIdempotent(word: string)
    ensures NormalizeWord(NormalizeWord(word)) == NormalizeWord(word)
  {
    var r := NormalizeWord(word);
    ToLowerOfLowerCase(r);
    TrimOfTrimmed(r);
    KeepOnlyAll(r, IsNormalChar);
  }

  // ---------------------------------------------------------------------
  // Suggestions by edit distance

  const DefaultMaxDistance: nat := 2
  const DefaultMaxResults: nat := 5

  datatype Suggestion = Suggestion(word: string, distance: nat, confidence: nat)

  /** `Math.max(0, 100 - distance * 25)` */
  function Confidence(distance: nat): (c: nat)
    ensures c <= 100
  {
    if 100 - 25 * distance > 0 then 100 - 25 * distance else 0
  }

  function DistanceKey(s: Suggestion): int { s.distance }

  /** The suggestion `findSimilarWords` pushes for one list word, if any. */
  function SimilarTo(target: string, word: string, maxDistance: nat): seq<Suggestion>
  {
    var normalized := NormalizeWord(word);
    var d := Dist(target, normalized);
    if normalized == target || d > maxDistance then []
    else [Suggestion(word, d, Confidence(d))]
  }

  /** The suggestions pushed for the whole list, in list order. */
  function SimilarCandidates(target: string, words: seq<string>, maxDistance: nat): seq<Suggestion>
  {
    if words == [] then []
    else (SimilarCandidates(target, words[..|words| - 1], maxDistance)
          + SimilarTo(target, words[|words| - 1], maxDistance))
  }

  /** What `findSimilarWords` returns. */
  function SimilarWords(targetWord: string, words: seq<string>, maxDistance: nat, maxResults: nat): seq<Suggestion>
  {
    Take(SortBy(SimilarCandidates(NormalizeWord(targetWord), words, maxDistance), DistanceKey), maxResults)
  }

  /** `findSimilarWords`: one pass over the list, then a stable sort by
      distance and the first `maxResults`. */
  method FindSimilarWords(targetWord: string, wordsList: seq<string>, maxDistance: nat, maxResults: nat)
    returns (r: seq<Suggestion>)
    ensures r == SimilarWords(targetWord, wordsList, maxDistance, maxResults)
  {
    var suggestions := [];
    var normalizedTarget := NormalizeWord(targetWord);
    for k := 0 to |wordsList|
      invariant suggestions == SimilarCandidates(normalizedTarget, wordsList[..k], maxDistance)
    {
      var word := wordsList[k];
      var normalizedWord := NormalizeWord(word);
      assert wordsList[..k + 1][..k] == wordsList[..k];
      if normalizedWord != normalizedTarget {
        var distance := LevenshteinDistance(normalizedTarget, normalizedWord);
        if distance <= maxDistance {
          suggestions := suggestions + [Suggestion(word, distance, Confidence(distance))];
        }
      }
    }
    assert wordsList[..|wordsList|] == wordsList;
    r := Take(SortBy(suggestions, DistanceKey), maxResults);
  }

  /** Every candidate comes from the list, differs from the target once
      normalised, lies within `maxDistance`, and carries the confidence of
      its distance; since it differs, the distance is at least 1. */
  lemma {:induction false} SimilarCandidatesSound(target: string, words: seq<string>, maxDistance: nat)
    ensures forall s :: s in SimilarCandidates(target, words, maxDistance) ==>
      && s.word in words
      && NormalizeWord(s.word) != target
      && 1 <= s.distance == Dist(target, NormalizeWord(s.word)) <= maxDistance
      && s.confidence == Confidence(s.distance)
  {
    if words != [] {
      var init, last := words[..|words| - 1], words[|words| - 1];
      SimilarCandidatesSound(target, init, maxDistance);
      DistZero(target, NormalizeWord(last));
      assert forall w :: w in init ==> w in words;
    }
  }

  /** Every list word that differs from the target and is within
      `maxDistance` is a candidate. */
  lemma {:induction false} SimilarCandidatesComplete(target: string, words: seq<string>, maxDistance: nat, i: nat)
    requires i < |words|
    requires NormalizeWord(words[i]) != target
    requires Dist(target, NormalizeWord(words[i])) <= maxDistance
    ensures SimilarTo(target, words[i], maxDistance) == [Suggestion(words[i], Dist(target, NormalizeWord(words[i])), Confidence(Dist(target, NormalizeWord(words[i]))))]
    ensures SimilarTo(target, words[i], maxDistance)[0] in SimilarCandidates(target, words, maxDistance)
  {
    var init := words[..|words| - 1];
    if i < |words| - 1 {
      assert init[i] == words[i];
      SimilarCandidatesComplete(target, init, maxDistance, i);
    }
  }

  /** What `findSimilarWords` promises: at most `maxResults` suggestions,
      none equal to the target once normalised, all within `maxDistance`,
      with confidence `max(0, 100 - 25 d)`, ordered by ascending distance
      and hence descending confidence. */
  lemma {:induction false} SimilarWordsProperties(targetWord: string, words: seq<string>, maxDistance: nat, maxResults: nat)
    ensures var r := SimilarWords(targetWord, words, maxDistance, maxResults);
      && |r| <= maxResults
      && (forall i :: 0 <= i < |r| ==>
            && r[i].word in words
            && NormalizeWord(r[i].word) != NormalizeWord(targetWord)
            && 1 <= r[i].distance == Dist(NormalizeWord(targetWord), NormalizeWord(r[i].word)) <= maxDistance
            && r[i].confidence == Confidence(r[i].distance) <= 75)
      && (forall i, j :: 0 <= i < j < |r| ==>
            r[i].distance <= r[j].distance && r[i].confidence >= r[j].confidence)
  {
    SimilarWordsSound(targetWord, words, maxDistance, maxResults);
    SimilarWordsSorted(targetWord, words, maxDistance, maxResults);
    var r := SimilarWords(targetWord, words, maxDistance, maxResults);
    forall i, j | 0 <= i < j < |r| ensures r[i].confidence >= r[j].confidence {
      ConfidenceMonotone(r[i].distance, r[j].distance);
    }
  }

  /** A larger distance never gives a higher confidence. */
  lemma {:induction false} ConfidenceMonotone(d: nat, e: nat)
    requires d <= e
    ensures Confidence(d) >= Confidence(e)
  {
  }

  /** Each suggestion returned is a candidate of the list. */
  lemma {:induction false} SimilarWordsSound(targetWord: string, words: seq<string>, maxDistance: nat, maxResults: nat)
    ensures var r := SimilarWords(targetWord, words, maxDistance, maxResults);
      && |r| <= maxResults
      && (forall i :: 0 <= i < |r| ==>
            && r[i].word in words
            && NormalizeWord(r[i].word) != NormalizeWord(targetWord)
            && 1 <= r[i].distance == Dist(NormalizeWord(targetWord), NormalizeWord(r[i].word)) <= maxDistance
            && r[i].confidence == Confidence(r[i].distance) <= 75)
  {
    var target := NormalizeWord(targetWord);
    var candidates := SimilarCandidates(target, words, maxDistance);
    var sorted := SortBy(candidates, DistanceKey);
    SimilarCandidatesSound(target, words, maxDistance);
    SortByMembers(candidates, DistanceKey);
    var r := Take(sorted, maxResults);
    forall i | 0 <= i < |r| ensures r[i] in candidates {
      assert r[i] == sorted[i];
    }
  }

  /** The suggestions returned come by ascending distance. */
  lemma {:induction false} SimilarWordsSorted(targetWord: string, words: seq<string>, maxDistance: nat, maxResults: nat)
    ensures var r := SimilarWords(targetWord, words, maxDistance, maxResults);
      forall i, j :: 0 <= i < j < |r| ==> r[i].distance <= r[j].distance
  {
    var target := NormalizeWord(targetWord);
    var candidates := SimilarCandidates(target, words, maxDistance);
    var sorted := SortBy(candidates, DistanceKey);
    SortBySorted(candidates, DistanceKey);
    var r := Take(sorted, maxResults);
    forall i, j | 0 <= i < j < |r| ensures DistanceKey(r[i]) <= DistanceKey(r[j]) {
      assert r[i] == sorted[i] && r[j] == sorted[j];
    }
  }

  /** When fewer than `maxResults` suggestions come back, none was cut off:
      every list word within `maxDistance` (other than the target) is among
      them. */
  lemma {:induction false} SimilarWordsComplete(targetWord: string, words: seq<string>, maxDistance: nat, maxResults: nat, i: nat)
    requires i < |words|
    requires NormalizeWord(words[i]) != NormalizeWord(targetWord)
    requires Dist(NormalizeWord(targetWord), NormalizeWord(words[i])) <= maxDistance
    requires |SimilarWords(targetWord, words, maxDistance, maxResults)| < maxResults
    ensures exists j :: (0 <= j < |SimilarWords(targetWord, words, maxDistance, maxResults)|
      && SimilarWords(targetWord, words, maxDistance, maxResults)[j].word == words[i])
  {
    var target := NormalizeWord(targetWord);
    var candidates := SimilarCandidates(target, words, maxDistance);
    SimilarCandidatesComplete(target, words, maxDistance, i);
    var s := SimilarTo(target, words[i], maxDistance)[0];
    SortByMembers(candidates, DistanceKey);
    var sorted := SortBy(candidates, DistanceKey);
    assert SimilarWords(targetWord, words, maxDistance, maxResults) == sorted;
    var j :| 0 <= j < |sorted| && sorted[j] == s;
    assert sorted[j].word == words[i];
  }

  // ---------------------------------------------------------------------
  // Spell-checking a text

  /** `dictionary.some(w => normalizeWord(w) === normalizeWord(word))` */
  function InDictionary(dictionary: seq<string>, word: string): (b: bool)
    ensures b <==> exists i :: 0 <= i < |dictionary| && NormalizeWord(dictionary[i]) == NormalizeWord(word)
  {
    if dictionary == [] then false
    else NormalizeWord(dictionary[0]) == NormalizeWord(word) || InDictionary(dictionary[1..], word)
  }

  datatype SpellResult = SpellResult(
    word: string, normalizedWord: string, start: int, end: int,
    isCorrect: bool, suggestions: seq<Suggestion>)

  /** The result `checkTextSpelling` pushes for one token. */
  function CheckToken(dictionary: seq<string>, token: Token): SpellResult
  {
    if InDictionary(dictionary, token.word) then
      SpellResult(token.originalWord, token.word, token.start, token.end, true, [])
    else
      SpellResult(token.originalWord, token.word, token.start, token.end, false,
        SimilarWords(token.word, dictionary, DefaultMaxDistance, DefaultMaxResults))
  }

  /** The body of `checkTextSpelling`'s loop: the dictionary test, then the
      suggestions for a word that is not found. */
  method CheckOneToken(dictionary: seq<string>, token: Token) returns (result: SpellResult)
    ensures result == CheckToken(dictionary, token)
  {
    var isCorrect := InDictionary(dictionary, token.word);
    if !isCorrect {
      var suggestions := FindSimilarWords(token.word, dictionary, DefaultMaxDistance, DefaultMaxResults);
      result := SpellResult(token.originalWord, token.word, token.start, token.end, false, suggestions);
    } else {
      result := SpellResult(token.originalWord, token.word, token.start, token.end, true, []);
    }
  }

  /** `checkTextSpelling`: one result per token, in order. */
  method CheckTextSpelling(text: string, dictionary: seq<string>) returns (results: seq<SpellResult>)
    ensures |results| == |Tokens(text)|
    ensures forall k :: 0 <= k < |results| ==> results[k] == CheckToken(dictionary, TokenOf(text, Tokens(text)[k]))
  {
    var tokens := TokenizeText(text);
    results := [];
    for k := 0 to |tokens|
      invariant |results| == k
      invariant forall m :: 0 <= m < k ==> results[m] == CheckToken(dictionary, tokens[m])
    {
      var result := CheckOneToken(dictionary, tokens[k]);
      results := results + [result];
    }
  }

  /** What each result says: the token's span and text, its lower-case form,
      `isCorrect` exactly when some dictionary word normalises to the same
      form, no suggestions for a correct word, and the distance-ranked
      suggestions with the default limits for an incorrect one. */
  lemma {:induction false} CheckTokenProperties(text: string, dictionary: seq<string>, k: nat)
    requires k < |Tokens(text)|
    ensures var sp := Tokens(text)[k];
      var r := CheckToken(dictionary, TokenOf(text, sp));
      && r.start == sp.start && r.end == sp.end && r.word == text[sp.start..sp.end]
      && r.normalizedWord == ToLower(r.word)
      && (r.isCorrect <==> exists i :: 0 <= i < |dictionary| && NormalizeWord(dictionary[i]) == NormalizeWord(r.word))
      && (r.isCorrect ==> r.suggestions == [])
      && (!r.isCorrect ==> |r.suggestions| <= DefaultMaxResults)
  {
    var sp := Tokens(text)[k];
    var w := text[sp.start..sp.end];
    ToLowerIsLowerCase(w);
    assert NormalizeWord(ToLower(w)) == NormalizeWord(w) by {
      assert ToLower(ToLower(w)) == ToLower(w);
    }
    SimilarWordsProperties(ToLower(w), dictionary, DefaultMaxDistance, DefaultMaxResults);
  }

  /** A dictionary word is recognised in any letter case: its upper-case
      spelling normalises to the same form. */
  lemma {:induction false} InDictionaryAnyCase(dictionary: seq<string>, word: string, variant: string)
    requires ToLower(variant) == ToLower(word)
    ensures InDictionary(dictionary, variant) == InDictionary(dictionary, word)
  {
    assert NormalizeWord(variant) == NormalizeWord(word);
  }

  /** The counts of `getTextStatistics` (the accuracy percentage is a
      floating-point value and is not modelled). */
  datatype TextStatistics = TextStatistics(totalWords: nat, correctWords: nat, incorrectWords: int, textLength: nat)

  function CountCorrect(results: seq<SpellResult>): (n: nat)
    ensures n <= |results|
  {
    if results == [] then 0
    else CountCorrect(results[..|results| - 1]) + (if results[|results| - 1].isCorrect then 1 else 0)
  }

  function GetTextStatistics(text: string, results: seq<SpellResult>): (r: TextStatistics)
    ensures r.correctWords + r.incorrectWords == r.totalWords == |results|
    ensures 0 <= r.incorrectWords <= r.totalWords
    ensures r.textLength == |text|
  {
    var total := |results|;
    var correct := CountCorrect(results);
    TextStatistics(total, correct, total - correct, |text|)
  }

  /** Every result counts as correct or as incorrect, and the incorrect
      ones are exactly those with `isCorrect` false. */
  lemma {:induction false} CountCorrectSplit(results: seq<SpellResult>)
    ensures CountCorrect(results) == |results| <==> forall i :: 0 <= i < |results| ==> results[i].isCorrect
    ensures CountCorrect(results) == 0 <==> forall i :: 0 <= i < |results| ==> !results[i].isCorrect
  {
    if results != [] {
      var init := results[..|results| - 1];
      CountCorrectSplit(init);
      assert forall i :: 0 <= i < |init| ==> init[i] == results[i];
    }
  }

  // ---------------------------------------------------------------------
  // Fuzzy search

  const DefaultFuzzyLimit: nat := 10
  const FuzzyMaxDistance: nat := 3

  datatype MatchKind = Exact | Similar
  {
    function Name(): string { match this case Exact => "exact" case Similar => "similar" }
  }

  datatype FuzzyMatch = FuzzyMatch(word: string, kind: MatchKind, score: nat)

  /** `Math.max(0, 100 - distance * 20)` */
  function SimilarScore(distance: nat): (score: nat)
    ensures score <= 100
  {
    if 100 - 20 * distance > 0 then 100 - 20 * distance else 0
  }

  /** Higher scores sort first. */
  function ScoreKey(m: FuzzyMatch): int { 0 - m.score as int }

  /** What `fuzzySearch` pushes for one dictionary word. */
  function FuzzyFor(query: string, word: string): seq<FuzzyMatch>
  {
    var normalized := NormalizeWord(word);
    if Contains(normalized, query) then [FuzzyMatch(word, Exact, 100)]
    else
      var d := Dist(query, normalized);
      if d <= FuzzyMaxDistance then [FuzzyMatch(word, Similar, SimilarScore(d))] else []
  }

  function FuzzyCandidates(query: string, dictionary: seq<string>): seq<FuzzyMatch>
  {
    if dictionary == [] then []
    else (FuzzyCandidates(query, dictionary[..|dictionary| - 1])
          + FuzzyFor(query, dictionary[|dictionary| - 1]))
  }

  function FuzzyResults(query: string, dictionary: seq<string>, limit: nat): seq<FuzzyMatch>
  {
    Take(SortBy(FuzzyCandidates(NormalizeWord(query), dictionary), ScoreKey), limit)
  }

  /** `fuzzySearch`: substring matches score 100, other words within edit
      distance 3 score `max(0, 100 - 20 d)`; stable sort by descending
      score, then the first `limit`. */
  method FuzzySearch(query: string, dictionary: seq<string>, limit: nat) returns (r: seq<FuzzyMatch>)
    ensures r == FuzzyResults(query, dictionary, limit)
  {
    var normalizedQuery := NormalizeWord(query);
    var results := [];
    for k := 0 to |dictionary|
      invariant results == FuzzyCandidates(normalizedQuery, dictionary[..k])
    {
      var word := dictionary[k];
      var normalizedWord := NormalizeWord(word);
      assert dictionary[..k + 1][..k] == dictionary[..k];
      if Contains(normalizedWord, normalizedQuery) {
        results := results + [FuzzyMatch(word, Exact, 100)];
      } else {
        var distance := LevenshteinDistance(normalizedQuery, normalizedWord);
        if distance <= FuzzyMaxDistance {
          results := results + [FuzzyMatch(word, Similar, SimilarScore(distance))];
        }
      }
    }
    assert dictionary[..|dictionary|] == dictionary;
    r := Take(SortBy(results, ScoreKey), limit);
  }

  lemma {:induction false} FuzzyCandidatesSound(query: string, dictionary: seq<string>)
    ensures forall m :: m in FuzzyCandidates(query, dictionary) ==>
      && m.word in dictionary
      && (m.kind == Exact <==> Contains(NormalizeWord(m.word), query))
      && (m.kind == Exact ==> m.score == 100)
      && (m.kind == Similar ==>
            var d := Dist(query, NormalizeWord(m.word));
            1 <= d <= FuzzyMaxDistance && m.score == SimilarScore(d) && m.score >= 40)
  {
    if dictionary != [] {
      var init, last := dictionary[..|dictionary| - 1], dictionary[|dictionary| - 1];
      FuzzyCandidatesSound(query, init);
      DistZero(query, NormalizeWord(last));
      if NormalizeWord(last) == query {
        assert OccursAt(NormalizeWord(last), query, 0);
      }
      assert forall w :: w in init ==> w in dictionary;
    }
  }

  /** What `fuzzySearch` promises: at most `limit` results, each from the
      dictionary, "exact" exactly for substring matches (score 100),
      otherwise "similar" within distance 3 with score `100 - 20 d`; ordered
      by descending score. */
  lemma {:induction false} FuzzySearchProperties(query: string, dictionary: seq<string>, limit: nat)
    ensures var r := FuzzyResults(query, dictionary, limit);
      && |r| <= limit
      && (forall i :: 0 <= i < |r| ==>
            && r[i].word in dictionary
            && (r[i].kind == Exact <==> Contains(NormalizeWord(r[i].word), NormalizeWord(query)))
            && (r[i].kind == Exact ==> r[i].score == 100)
            && (r[i].kind == Similar ==>
                  var d := Dist(NormalizeWord(query), NormalizeWord(r[i].word));
                  1 <= d <= FuzzyMaxDistance && r[i].score == SimilarScore(d)))
      && (forall i, j :: 0 <= i < j < |r| ==> r[i].score >= r[j].score)
  {
    var q := NormalizeWord(query);
    var candidates := FuzzyCandidates(q, dictionary);
    var sorted := SortBy(candidates, ScoreKey);
    FuzzyCandidatesSound(q, dictionary);
    SortByMembers(candidates, ScoreKey);
    SortBySorted(candidates, ScoreKey);
    var r := Take(sorted, limit);
    forall i | 0 <= i < |r| ensures r[i] in candidates {
      assert r[i] == sorted[i];
    }
    forall i, j | 0 <= i < j < |r| ensures ScoreKey(r[i]) <= ScoreKey(r[j]) {
      assert r[i] == sorted[i] && r[j] == sorted[j];
    }
  }

  /** An empty query is a substring of every word: every dictionary word
      comes back as an exact match. */
  lemma {:induction false} FuzzyEmptyQuery(word: string)
    ensures FuzzyFor("", word) == [FuzzyMatch(word, Exact, 100)]
  {
    assert OccursAt(NormalizeWord(word), "", 0);
  }
}
