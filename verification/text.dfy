/** JavaScript string primitives the server relies on, over `seq<char>`:
    character classes, `toLowerCase`, `trim`, `indexOf`/`includes`,
    `substring`, `join` and decimal rendering of integers. Indices and
    lengths count characters; JavaScript counts UTF-16 code units, and the
    two agree on text in the Basic Multilingual Plane, where every letter
    the server handles lies. */
module Text {

  // ---------------------------------------------------------------------
  // Character classes

  /** `\d` */
  predicate IsDigit(c: char) { '0' <= c <= '9' }

  predicate IsAsciiLetter(c: char) { 'a' <= c <= 'z' || 'A' <= c <= 'Z' }

  /** `\w` */
  predicate IsWordChar(c: char) { IsAsciiLetter(c) || IsDigit(c) || c == '_' }

  predicate IsHexDigit(c: char) { IsDigit(c) || 'a' <= c <= 'f' || 'A' <= c <= 'F' }

  /** `\s`, and the characters `String.prototype.trim` removes: the
      ECMAScript WhiteSpace and LineTerminator characters. */
  predicate IsSpace(c: char) {
    || c == '\t' || c == '\n' || c == '\U{000B}' || c == '\U{000C}' || c == '\r'
    || c == ' ' || c == '\U{00A0}' || c == '\U{1680}'
    || ('\U{2000}' <= c <= '\U{200A}')
    || c == '\U{2028}' || c == '\U{2029}' || c == '\U{202F}' || c == '\U{205F}'
    || c == '\U{3000}' || c == '\U{FEFF}'
  }

  /** The characters `.` in a regular expression does not match. */
  predicate IsLineTerminator(c: char) {
    c == '\n' || c == '\r' || c == '\U{2028}' || c == '\U{2029}'
  }

  // ---------------------------------------------------------------------
  // Case mapping

  /** `toLowerCase` on one character, for the blocks the orthographies use:
      ASCII, Latin-1, Latin Extended-A and Cyrillic (U+0400..U+04FF). Every
      other character is its own lower case. */
  function Lower(c: char): char
  {
    var n := c as int;
    if 'A' <= c <= 'Z' then (n + 32) as char
    else if 0xC0 <= n <= 0xDE && n != 0xD7 then (n + 32) as char
    else if 0x100 <= n <= 0x12F && n % 2 == 0 then (n + 1) as char
    else if 0x132 <= n <= 0x137 && n % 2 == 0 then (n + 1) as char
    else if 0x139 <= n <= 0x148 && n % 2 == 1 then (n + 1) as char
    else if 0x14A <= n <= 0x177 && n % 2 == 0 then (n + 1) as char
    else if n == 0x178 then 0xFF as char
    else if 0x179 <= n <= 0x17E && n % 2 == 1 then (n + 1) as char
    else if 0x400 <= n <= 0x40F then (n + 0x50) as char
    else if 0x410 <= n <= 0x42F then (n + 0x20) as char
    else if 0x460 <= n <= 0x481 && n % 2 == 0 then (n + 1) as char
    else if 0x48A <= n <= 0x4BF && n % 2 == 0 then (n + 1) as char
    else if n == 0x4C0 then 0x4CF as char
    else if 0x4C1 <= n <= 0x4CE && n % 2 == 1 then (n + 1) as char
    else if 0x4D0 <= n <= 0x4FF && n % 2 == 0 then (n + 1) as char
    else c
  }

  /** Lower case is a fixed point, and `Lower` neither creates nor removes
      white space, digits or `\w` characters. */
  lemma {:induction false} LowerFacts(c: char)
    ensures Lower(Lower(c)) == Lower(c)
    ensures IsSpace(Lower(c)) <==> IsSpace(c)
    ensures IsDigit(Lower(c)) <==> IsDigit(c)
    ensures IsWordChar(c) ==> IsWordChar(Lower(c))
  {
  }

  /** `String.prototype.toLowerCase` */
  function ToLower(s: string): (r: string)
    ensures |r| == |s|
    ensures forall i :: 0 <= i < |s| ==> r[i] == Lower(s[i])
  {
    seq(|s|, i requires 0 <= i < |s| => Lower(s[i]))
  }

  predicate IsLowerCase(s: string) {
    forall i :: 0 <= i < |s| ==> Lower(s[i]) == s[i]
  }

  lemma {:induction false} ToLowerOfLowerCase(s: string)
    requires IsLowerCase(s)
    ensures ToLower(s) == s
  {
  }

  lemma {:induction false} ToLowerIsLowerCase(s: string)
    ensures IsLowerCase(ToLower(s))
    ensures ToLower(ToLower(s)) == ToLower(s)
  {
    forall i | 0 <= i < |s| ensures Lower(Lower(s[i])) == Lower(s[i]) {
      LowerFacts(s[i]);
    }
  }

  // ---------------------------------------------------------------------
  // trim

  function FirstNonSpace(s: string, i: nat): (k: nat)
    requires i <= |s|
    ensures i <= k <= |s|
    ensures forall j :: i <= j < k ==> IsSpace(s[j])
    ensures k < |s| ==> !IsSpace(s[k])
    decreases |s| - i
  {
    if i < |s| && IsSpace(s[i]) then FirstNonSpace(s, i + 1) else i
  }

  function LastNonSpaceEnd(s: string, j: nat): (k: nat)
    requires j <= |s|
    ensures k <= j
    ensures forall m :: k <= m < j ==> IsSpace(s[m])
    ensures k > 0 ==> !IsSpace(s[k - 1])
  {
    if j > 0 && IsSpace(s[j - 1]) then LastNonSpaceEnd(s, j - 1) else j
  }

  /** Where the trimmed string starts in `s`. */
  function TrimLeft(s: string): nat {
    FirstNonSpace(s, 0)
  }

  /** Where the trimmed string ends in `s`. */
  function TrimRight(s: string): (k: nat)
    ensures TrimLeft(s) <= k <= |s|
    ensures forall m :: k <= m < |s| ==> IsSpace(s[m])
    ensures k > TrimLeft(s) ==> !IsSpace(s[k - 1])
  {
    if TrimLeft(s) == |s| then |s|
    else
      var k := LastNonSpaceEnd(s, |s|);
      assert !IsSpace(s[TrimLeft(s)]);
      k
  }

  /** `String.prototype.trim`: the slice of `s` without leading and trailing
      white space; no other character is removed. */
  function Trim(s: string): (r: string)
    ensures r == s[TrimLeft(s)..TrimRight(s)]
    ensures r == [] || (!IsSpace(r[0]) && !IsSpace(r[|r| - 1]))
    ensures forall j :: 0 <= j < |s| && !IsSpace(s[j]) ==> TrimLeft(s) <= j < TrimRight(s)
  {
    s[TrimLeft(s)..TrimRight(s)]
  }

  predicate NoSpace(s: string) {
    forall i :: 0 <= i < |s| ==> !IsSpace(s[i])
  }

  predicate AllSpace(s: string) {
    forall i :: 0 <= i < |s| ==> IsSpace(s[i])
  }

  /** The trim is empty exactly when every character is white space. */
  lemma {:induction false} TrimEmpty(s: string)
    ensures Trim(s) == "" <==> AllSpace(s)
  {
    if !AllSpace(s) {
      var j :| 0 <= j < |s| && !IsSpace(s[j]);
    }
  }

  /** A string whose ends are not white space is its own trim. */
  lemma {:induction false} TrimOfTrimmed(s: string)
    requires s == [] || (!IsSpace(s[0]) && !IsSpace(s[|s| - 1]))
    ensures Trim(s) == s
  {
    if s != [] {
      assert TrimLeft(s) == 0;
      assert TrimRight(s) == |s|;
    }
  }

  lemma {:induction false} TrimIdempotent(s: string)
    ensures Trim(Trim(s)) == Trim(s)
  {
    TrimOfTrimmed(Trim(s));
  }

  /** Where the trim of a padded string starts. */
  lemma {:induction false} TrimLeftPadded(p: string, s: string, q: string)
    requires AllSpace(p) && AllSpace(q) && TrimLeft(s) < |s|
    ensures TrimLeft(p + s + q) == |p| + TrimLeft(s)
  {
    var t := p + s + q;
    var a := TrimLeft(s);
    forall j | 0 <= j < |p| + a ensures IsSpace(t[j]) {
      if j >= |p| {
        assert t[j] == s[j - |p|];
      }
    }
    assert t[|p| + a] == s[a];
    FirstNonSpaceUnique(t, |p| + a);
  }

  /** Where the trim of a padded string ends. */
  lemma {:induction false} TrimRightPadded(p: string, s: string, q: string)
    requires AllSpace(p) && AllSpace(q) && TrimLeft(s) < |s|
    ensures TrimRight(p + s + q) == |p| + TrimRight(s)
  {
    var t := p + s + q;
    var b := TrimRight(s);
    forall m | |p| + b <= m < |t| ensures IsSpace(t[m]) {
      if m < |p| + |s| {
        assert t[m] == s[m - |p|];
      } else {
        assert t[m] == q[m - |p| - |s|];
      }
    }
    assert t[|p| + b - 1] == s[b - 1];
    LastNonSpaceEndUnique(t, |p| + b);
  }

  /** Padding with white space on either side does not change the trim. */
  lemma {:induction false} TrimPadded(p: string, s: string, q: string)
    requires AllSpace(p) && AllSpace(q)
    ensures Trim(p + s + q) == Trim(s)
  {
    var t := p + s + q;
    TrimEmpty(s);
    if TrimLeft(s) == |s| {
      assert AllSpace(t) by {
        forall j | 0 <= j < |t| ensures IsSpace(t[j]) {
          if |p| <= j < |p| + |s| {
            assert t[j] == s[j - |p|];
          }
        }
      }
      TrimEmpty(t);
    } else {
      TrimLeftPadded(p, s, q);
      TrimRightPadded(p, s, q);
      assert t[|p| + TrimLeft(s)..|p| + TrimRight(s)] == s[TrimLeft(s)..TrimRight(s)];
    }
  }

  /** `toLowerCase` keeps every character's white-space status. */
  lemma {:induction false} ToLowerSpaces(s: string)
    ensures forall i :: 0 <= i < |s| ==> (IsSpace(ToLower(s)[i]) <==> IsSpace(s[i]))
    ensures AllSpace(ToLower(s)) <==> AllSpace(s)
  {
    forall i | 0 <= i < |s| ensures IsSpace(ToLower(s)[i]) <==> IsSpace(s[i]) {
      LowerFacts(s[i]);
    }
  }

  /** Two strings with white space at the same places are trimmed at the
      same places. */
  lemma {:induction false} TrimBoundsAgree(a: string, b: string)
    requires |a| == |b|
    requires forall i :: 0 <= i < |a| ==> (IsSpace(a[i]) <==> IsSpace(b[i]))
    ensures TrimLeft(a) == TrimLeft(b) && TrimRight(a) == TrimRight(b)
  {
    var k := TrimLeft(b);
    FirstNonSpaceUnique(a, k);
    if k < |b| {
      LastNonSpaceEndUnique(a, TrimRight(b));
    }
  }

  /** `toLowerCase` and `trim` commute: `Lower` never creates or removes
      white space. */
  lemma {:induction false} ToLowerTrimCommute(s: string)
    ensures ToLower(Trim(s)) == Trim(ToLower(s))
  {
    ToLowerSpaces(s);
    TrimBoundsAgree(ToLower(s), s);
    assert ToLower(s)[TrimLeft(s)..TrimRight(s)] == ToLower(s[TrimLeft(s)..TrimRight(s)]);
  }

  lemma {:induction false} FirstNonSpaceUnique(s: string, k: nat)
    requires k <= |s|
    requires forall j :: 0 <= j < k ==> IsSpace(s[j])
    requires k < |s| ==> !IsSpace(s[k])
    ensures TrimLeft(s) == k
  {
  }

  lemma {:induction false} LastNonSpaceEndUnique(s: string, k: nat)
    requires 0 < k <= |s|
    requires forall m :: k <= m < |s| ==> IsSpace(s[m])
    requires !IsSpace(s[k - 1])
    ensures TrimRight(s) == k
  {
  }

  /** `toLowerCase().trim()`: the key form of a word in the dictionary
      store and in the dictionary cache. */
  function LowerTrim(s: string): string {
    Trim(ToLower(s))
  }

  /** The key has no upper-case letter and no surrounding white space. */
  lemma {:induction false} LowerTrimShape(s: string)
    ensures IsLowerCase(LowerTrim(s))
    ensures var r := LowerTrim(s); r == [] || (!IsSpace(r[0]) && !IsSpace(r[|r| - 1]))
  {
    ToLowerIsLowerCase(s);
  }

  lemma {:induction false} LowerTrimIdempotent(s: string)
    ensures LowerTrim(LowerTrim(s)) == LowerTrim(s)
  {
    var r := LowerTrim(s);
    LowerTrimShape(s);
    ToLowerOfLowerCase(r);
    TrimOfTrimmed(r);
  }

  /** Any variant of a word that differs only in letter case (as
      `toLowerCase` sees it) and in surrounding white space has the same key. */
  lemma {:induction false} LowerTrimVariant(w: string, v: string, p: string, q: string)
    requires ToLower(v) == ToLower(w)
    requires AllSpace(p) && AllSpace(q)
    ensures LowerTrim(p + v + q) == LowerTrim(w)
  {
    assert ToLower(p + v + q) == ToLower(p) + ToLower(v) + ToLower(q);
    ToLowerSpaces(p);
    ToLowerSpaces(q);
    TrimPadded(ToLower(p), ToLower(v), ToLower(q));
  }

  // ---------------------------------------------------------------------
  // Searching

  predicate OccursAt(s: string, sub: string, i: int) {
    0 <= i && i + |sub| <= |s| && s[i..i + |sub|] == sub
  }

  /** `s.indexOf(sub, from)` for `from <= |s|`: the first occurrence at or
      after `from`, or -1. */
  function IndexOf(s: string, sub: string, from: nat): (r: int)
    ensures r == -1 || (from <= r && OccursAt(s, sub, r))
    ensures forall i :: from <= i && (r == -1 || i < r) ==> !OccursAt(s, sub, i)
    decreases |s| - from
  {
    if from + |sub| > |s| then -1
    else if s[from..from + |sub|] == sub then from
    else IndexOf(s, sub, from + 1)
  }

  /** `s.includes(sub)` */
  predicate Contains(s: string, sub: string) {
    IndexOf(s, sub, 0) >= 0
  }

  /** `includes` holds exactly when the piece occurs somewhere. */
  lemma {:induction false} ContainsOccurs(s: string, sub: string)
    ensures Contains(s, sub) <==> exists i :: OccursAt(s, sub, i)
  {
    if exists i :: OccursAt(s, sub, i) {
      var i :| OccursAt(s, sub, i);
      assert i >= 0;
    }
  }

  /** `s.substring(0, n)` and `s.slice(0, n)` for `n >= 0`. */
  function Prefix(s: string, n: nat): (r: string)
    ensures |r| == if n < |s| then n else |s|
    ensures r == s[..|r|]
  {
    if n < |s| then s[..n] else s
  }

  /** `s.replace(/[^class]/g, "")`: keep only the characters in the class. */
  function KeepOnly(s: string, keep: char -> bool): (r: string)
    ensures |r| <= |s|
    ensures forall i :: 0 <= i < |r| ==> keep(r[i])
    ensures forall i :: 0 <= i < |r| ==> r[i] in s
  {
    if s == [] then []
    else
      var rest := KeepOnly(s[1..], keep);
      assert forall c :: c in s[1..] ==> c in s;
      if keep(s[0]) then [s[0]] + rest else rest
  }

  /** Filtering a lower-case string leaves it lower case. */
  lemma {:induction false} KeepOnlyLowerCase(s: string, keep: char -> bool)
    requires IsLowerCase(s)
    ensures IsLowerCase(KeepOnly(s, keep))
  {
    if s != [] {
      KeepOnlyLowerCase(s[1..], keep);
    }
  }

  lemma {:induction false} KeepOnlyAll(s: string, keep: char -> bool)
    requires forall i :: 0 <= i < |s| ==> keep(s[i])
    ensures KeepOnly(s, keep) == s
  {
    if s != [] {
      KeepOnlyAll(s[1..], keep);
    }
  }

  // ---------------------------------------------------------------------
  // join

  /** `parts.join(sep)` */
  function Join(parts: seq<string>, sep: string): string
  {
    if |parts| == 0 then ""
    else if |parts| == 1 then parts[0]
    else Join(parts[..|parts| - 1], sep) + sep + parts[|parts| - 1]
  }

  function SumLengths(parts: seq<string>): nat
  {
    if parts == [] then 0 else SumLengths(parts[..|parts| - 1]) + |parts[|parts| - 1]|
  }

  lemma {:induction false} JoinLength(parts: seq<string>, sep: string)
    requires |parts| > 0
    ensures |Join(parts, sep)| == SumLengths(parts) + (|parts| - 1) * |sep|
  {
    if |parts| > 1 {
      JoinLength(parts[..|parts| - 1], sep);
    }
  }

  lemma {:induction false} JoinSnoc(parts: seq<string>, sep: string, p: string)
    requires |parts| > 0
    ensures Join(parts + [p], sep) == Join(parts, sep) + sep + p
  {
    assert (parts + [p])[..|parts|] == parts;
  }

  /** Every part can be found in the joined string, at the returned offset:
      right after the join of the parts before it and one separator. */
  lemma {:induction false} JoinContainsPart(parts: seq<string>, sep: string, i: nat) returns (k: nat)
    requires i < |parts|
    ensures k == |Join(parts[..i], sep)| + (if i > 0 then |sep| else 0)
    ensures OccursAt(Join(parts, sep), parts[i], k)
  {
    if |parts| == 1 {
      k := 0;
    } else {
      var init := parts[..|parts| - 1];
      var j := Join(init, sep) + sep + parts[|parts| - 1];
      if i == |parts| - 1 {
        k := |Join(init, sep) + sep|;
        assert parts[..i] == init;
        assert j[k..k + |parts[i]|] == parts[i];
      } else {
        k := JoinContainsPart(init, sep, i);
        assert init[..i] == parts[..i];
        assert j[k..k + |parts[i]|] == Join(init, sep)[k..k + |parts[i]|];
      }
    }
  }

  /** Joining two or more parts puts the first part, then the separator,
      then the join of the others. */
  lemma {:induction false} JoinCons(parts: seq<string>, sep: string)
    requires |parts| >= 2
    ensures Join(parts, sep) == parts[0] + sep + Join(parts[1..], sep)
  {
    var n := |parts|;
    var init := parts[..n - 1];
    if n == 2 {
      assert init == [parts[0]];
      assert parts[1..] == [parts[1]];
    } else {
      JoinCons(init, sep);
      assert parts[1..][..n - 2] == init[1..];
      assert parts[1..][n - 2] == parts[n - 1];
    }
  }

  /** `s.split(c)` for a one-character separator: the pieces between the
      separators, always at least one. */
  function Split(s: string, c: char): (r: seq<string>)
    ensures |r| >= 1
  {
    if s == [] then [""]
    else if s[0] == c then [""] + Split(s[1..], c)
    else
      var rest := Split(s[1..], c);
      [[s[0]] + rest[0]] + rest[1..]
  }

  predicate Lacks(s: string, c: char) {
    forall i :: 0 <= i < |s| ==> s[i] != c
  }

  /** A piece without the separator, followed by the separator, is split
      off whole. */
  lemma {:induction false} SplitFirst(a: string, c: char, b: string)
    requires Lacks(a, c)
    ensures Split(a + [c] + b, c) == [a] + Split(b, c)
    ensures Split(a, c) == [a]
  {
    if a != [] {
      SplitFirst(a[1..], c, b);
      assert (a + [c] + b)[1..] == a[1..] + [c] + b;
      assert [a[0]] + a[1..] == a;
    }
  }

  /** Splitting a join at its separator gives the parts back, when no part
      holds the separator. */
  lemma {:induction false} SplitJoin(parts: seq<string>, c: char)
    requires |parts| >= 1
    requires forall k :: 0 <= k < |parts| ==> Lacks(parts[k], c)
    ensures Split(Join(parts, [c]), c) == parts
  {
    if |parts| == 1 {
      SplitFirst(parts[0], c, "");
    } else {
      JoinCons(parts, [c]);
      SplitJoin(parts[1..], c);
      SplitFirst(parts[0], c, Join(parts[1..], [c]));
    }
  }

  // ---------------------------------------------------------------------
  // Decimal rendering

  function DigitChar(d: nat): char
    requires d < 10
  {
    ('0' as int + d) as char
  }

  /** The decimal rendering JavaScript gives a non-negative integer. */
  function NatToString(n: nat): (r: string)
    ensures |r| >= 1
    ensures forall i :: 0 <= i < |r| ==> IsDigit(r[i])
    ensures n >= 10 ==> r[0] == NatToString(n / 10)[0]
  {
    if n < 10 then [DigitChar(n)] else NatToString(n / 10) + [DigitChar(n % 10)]
  }

  /** `${n}` for an integer: digits, after a minus sign when negative. */
  function IntToString(n: int): (r: string)
    ensures |r| >= 1
    ensures forall i :: 0 <= i < |r| ==> IsDigit(r[i]) || (i == 0 && r[i] == '-')
  {
    if n < 0 then "-" + NatToString(-n) else NatToString(n)
  }

  /** The most significant decimal digit of `n`. */
  function LeadingDigit(n: nat): (d: nat)
    ensures d < 10
  {
    if n < 10 then n else LeadingDigit(n / 10)
  }

  /** The rendering starts with the most significant digit. */
  lemma {:induction false} NatToStringFirst(n: nat)
    ensures NatToString(n)[0] == DigitChar(LeadingDigit(n))
  {
    if n >= 10 {
      NatToStringFirst(n / 10);
    }
  }
}
