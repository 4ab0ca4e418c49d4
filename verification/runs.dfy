/** Global matching of a regular expression of the form `/[class]+/g`:
    `text.match(re)` and repeated `re.exec(text)` both yield the maximal runs
    of class characters, left to right. A character class is a predicate. */
module Runs {
  import opened Wrappers
  import opened Text

  /** A half-open span `[start, end)` of character positions. */
  datatype Span = Span(start: nat, end: nat)

  /** The first position at or after `i` holding a class character, or |text|. */
  function FirstIn(text: string, i: nat, p: char -> bool): (k: nat)
    requires i <= |text|
    ensures i <= k <= |text|
    ensures forall j :: i <= j < k ==> !p(text[j])
    ensures k < |text| ==> p(text[k])
    decreases |text| - i
  {
    if i < |text| && !p(text[i]) then FirstIn(text, i + 1, p) else i
  }

  /** The first position at or after `i` holding a non-class character, or |text|. */
  function FirstOut(text: string, i: nat, p: char -> bool): (k: nat)
    requires i <= |text|
    ensures i <= k <= |text|
    ensures forall j :: i <= j < k ==> p(text[j])
    ensures k < |text| ==> !p(text[k])
    decreases |text| - i
  {
    if i < |text| && p(text[i]) then FirstOut(text, i + 1, p) else i
  }

  /** The first position from `i` outside `p` is the end of the run of `p`. */
  lemma {:induction false} FirstOutAt(text: string, i: nat, k: nat, p: char -> bool)
    requires i <= k <= |text|
    requires forall j :: i <= j < k ==> p(text[j])
    requires k < |text| ==> !p(text[k])
    ensures FirstOut(text, i, p) == k
    decreases k - i
  {
    if i < k {
      FirstOutAt(text, i + 1, k, p);
    }
  }

  /** One `re.exec(text)` with `re.lastIndex == from`: the leftmost longest
      run starting at or after `from`, or `None` (exec returns null). */
  function NextRun(text: string, from: nat, p: char -> bool): (r: Option<Span>)
    requires from <= |text|
    ensures r.Some? ==> from <= r.value.start < r.value.end <= |text|
  {
    var s := FirstIn(text, from, p);
    if s == |text| then None else Some(Span(s, FirstOut(text, s, p)))
  }

  /** All runs found by exec calls from position `from` on. */
  function RunsFrom(text: string, from: nat, p: char -> bool): (spans: seq<Span>)
    requires from <= |text|
    ensures forall k :: 0 <= k < |spans| ==> from <= spans[k].start < spans[k].end <= |text|
    decreases |text| - from
  {
    match NextRun(text, from, p)
    case None => []
    case Some(sp) => [sp] + RunsFrom(text, sp.end, p)
  }

  /** One exec call: when a run is found from `from`, it is the next of the
      runs still to come, and the rest follow from its end. */
  lemma {:induction false} NextRunAdvance(text: string, from: nat, p: char -> bool, spans: seq<Span>, n: nat)
    requires from <= |text| && n <= |spans| && spans[n..] == RunsFrom(text, from, p)
    requires NextRun(text, from, p).Some?
    ensures var sp := NextRun(text, from, p).value;
      && n < |spans| && spans[n] == sp
      && spans[n + 1..] == RunsFrom(text, sp.end, p)
  {
    var sp := NextRun(text, from, p).value;
    assert RunsFrom(text, from, p) == [sp] + RunsFrom(text, sp.end, p);
    assert spans[n] == spans[n..][0];
    assert spans[n + 1..] == spans[n..][1..];
  }

  /** `text.match(/[class]+/g)` as spans. */
  function AllRuns(text: string, p: char -> bool): seq<Span> {
    RunsFrom(text, 0, p)
  }

  /** The characters of a span. */
  function Word(text: string, sp: Span): string
    requires sp.start <= sp.end <= |text|
  {
    text[sp.start..sp.end]
  }

  /** Where the gap before run `k` begins: `from`, or the end of run `k - 1`. */
  function GapStart(spans: seq<Span>, k: nat, from: nat): nat
    requires k < |spans|
  {
    if k == 0 then from else spans[k - 1].end
  }

  /** Everything the match promises about its runs: each is inside the text,
      non-empty, made of class characters and maximal (a non-class character
      or the text's end follows it); they come in order, a non-class character
      separates consecutive runs, and the gap before each run holds no class
      character. */
  ghost predicate WellFormedRuns(text: string, from: nat, spans: seq<Span>, p: char -> bool)
  {
    forall k :: 0 <= k < |spans| ==> WellFormedRun(text, from, spans, k, p)
  }

  /** What the match promises about its `k`-th run. */
  ghost predicate WellFormedRun(text: string, from: nat, spans: seq<Span>, k: nat, p: char -> bool)
    requires k < |spans|
  {
    && from <= spans[k].start < spans[k].end <= |text|
    && (forall j :: spans[k].start <= j < spans[k].end ==> p(text[j]))
    && (spans[k].end < |text| ==> !p(text[spans[k].end]))
    && (k > 0 ==> spans[k - 1].end < spans[k].start)
    && (forall j :: GapStart(spans, k, from) <= j < spans[k].start ==> !p(text[j]))
  }

  /** No class character lies after the last run (or after `from`). */
  ghost predicate CoversTail(text: string, from: nat, spans: seq<Span>, p: char -> bool)
  {
    forall j :: (if spans == [] then from else spans[|spans| - 1].end) <= j < |text| ==> !p(text[j])
  }

  /** What the match promises about its `k`-th run. */
  lemma {:induction false} RunFacts(text: string, from: nat, p: char -> bool, k: nat)
    requires from <= |text|
    requires k < |RunsFrom(text, from, p)|
    ensures var spans := RunsFrom(text, from, p);
      && from <= spans[k].start < spans[k].end <= |text|
      && (forall j :: spans[k].start <= j < spans[k].end ==> p(text[j]))
      && (spans[k].end < |text| ==> !p(text[spans[k].end]))
      && (forall j :: GapStart(spans, k, from) <= j < spans[k].start ==> !p(text[j]))
      && (k > 0 ==> spans[k - 1].end < spans[k].start)
    decreases |text| - from
  {
    var sp := NextRun(text, from, p).value;
    var rest := RunsFrom(text, sp.end, p);
    assert RunsFrom(text, from, p) == [sp] + rest;
    if k > 0 {
      RunFacts(text, sp.end, p, k - 1);
      if k == 1 {
        assert rest[0].start >= sp.end && p(text[rest[0].start]);
      }
    }
  }

  /** No class character follows the last run. */
  lemma {:induction false} RunsTail(text: string, from: nat, p: char -> bool)
    requires from <= |text|
    ensures CoversTail(text, from, RunsFrom(text, from, p), p)
    decreases |text| - from
  {
    match NextRun(text, from, p)
    case None =>
    case Some(sp) =>
      var rest := RunsFrom(text, sp.end, p);
      RunsTail(text, sp.end, p);
      assert RunsFrom(text, from, p) == [sp] + rest;
  }

  lemma {:induction false} RunsFromWellFormed(text: string, from: nat, p: char -> bool)
    requires from <= |text|
    ensures WellFormedRuns(text, from, RunsFrom(text, from, p), p)
    ensures CoversTail(text, from, RunsFrom(text, from, p), p)
  {
    var spans := RunsFrom(text, from, p);
    forall k | 0 <= k < |spans| ensures WellFormedRun(text, from, spans, k, p) {
      RunFacts(text, from, p, k);
    }
    RunsTail(text, from, p);
  }

  /** Every class character at or after `from` lies inside some run: the
      match misses no word. */
  lemma {:induction false} RunContaining(text: string, from: nat, p: char -> bool, j: nat)
    returns (k: nat)
    requires from <= j < |text| && p(text[j])
    ensures k < |RunsFrom(text, from, p)|
    ensures RunsFrom(text, from, p)[k].start <= j < RunsFrom(text, from, p)[k].end
    decreases |text| - from
  {
    var sp := NextRun(text, from, p).value;
    var rest := RunsFrom(text, sp.end, p);
    assert RunsFrom(text, from, p) == [sp] + rest;
    if j < sp.end {
      k := 0;
    } else {
      var k' := RunContaining(text, sp.end, p, j);
      k := k' + 1;
    }
  }

  /** Searching for run `k`'s characters with `indexOf` from the end of the
      previous run (or from `from`) finds run `k` itself: the gap before it
      holds no class character, so no earlier occurrence can start there. */
  lemma {:induction false} IndexOfFindsRun(text: string, from: nat, p: char -> bool, k: nat)
    requires from <= |text|
    requires k < |RunsFrom(text, from, p)|
    ensures var spans := RunsFrom(text, from, p);
      IndexOf(text, Word(text, spans[k]), GapStart(spans, k, from)) == spans[k].start
  {
    var spans := RunsFrom(text, from, p);
    RunFacts(text, from, p, k);
    var w := Word(text, spans[k]);
    var last := GapStart(spans, k, from);
    assert OccursAt(text, w, spans[k].start);
    var r := IndexOf(text, w, last);
    assert r != -1;
    assert text[r] == w[0];
  }

  /** The characters of every run, in order. */
  function RunWords(text: string, p: char -> bool): (words: seq<string>)
    ensures |words| == |AllRuns(text, p)|
    ensures forall k :: 0 <= k < |words| ==> words[k] == Word(text, AllRuns(text, p)[k])
  {
    var spans := AllRuns(text, p);
    seq(|spans|, k requires 0 <= k < |spans| => Word(text, spans[k]))
  }

  /** Every run's characters are non-empty and all in the class; a text
      with a class character has at least one run. */
  lemma {:induction false} RunWordsShape(text: string, p: char -> bool)
    ensures forall k :: 0 <= k < |RunWords(text, p)| ==>
      RunWords(text, p)[k] != [] && forall j :: 0 <= j < |RunWords(text, p)[k]| ==> p(RunWords(text, p)[k][j])
    ensures |text| > 0 && p(text[0]) ==> |RunWords(text, p)| > 0
  {
    var words := RunWords(text, p);
    var spans := AllRuns(text, p);
    forall k | 0 <= k < |words|
      ensures words[k] != [] && forall j :: 0 <= j < |words[k]| ==> p(words[k][j])
    {
      RunFacts(text, 0, p, k);
    }
    if |text| > 0 && p(text[0]) {
      var first := RunContaining(text, 0, p, 0);
    }
  }
}
