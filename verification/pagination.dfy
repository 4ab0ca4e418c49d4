/** The page arithmetic shared by the history and dictionary listings, in
    JavaScript numbers. A query parameter goes through `parseInt`, which
    yields an integer or NaN (`None`); `Math.ceil(total / limit)` can in
    addition be Infinity when the limit is 0. */
module Pagination {
  import opened Wrappers
  import opened Text
  import opened Runs

  // ---------------------------------------------------------------------
  // parseInt

  /** The value of a hexadecimal digit (decimal digits included). */
  function HexDigitValue(c: char): (v: nat)
    requires IsHexDigit(c)
    ensures v < 16
    ensures IsDigit(c) ==> v < 10
  {
    if IsDigit(c) then c as int - '0' as int
    else if 'a' <= c <= 'f' then c as int - 'a' as int + 10
    else c as int - 'A' as int + 10
  }

  /** The value of a string of digits in the given base. */
  function DigitsValue(s: string, base: nat): nat
    requires forall i :: 0 <= i < |s| ==> IsHexDigit(s[i])
  {
    if s == [] then 0 else DigitsValue(s[..|s| - 1], base) * base + HexDigitValue(s[|s| - 1])
  }

  /** `parseInt(s)` without a radix: leading white space, an optional sign,
      then the longest run of decimal digits, or of hexadecimal digits after
      a "0x"/"0X" prefix. No digit at all gives NaN (`None`). The sign of a
      negative zero is not kept. */
  function ParseInt(s: string): (r: Option<int>)
  {
    var i := FirstNonSpace(s, 0);
    var negative := i < |s| && s[i] == '-';
    var j := if i < |s| && (s[i] == '-' || s[i] == '+') then i + 1 else i;
    var hex := j + 1 < |s| && s[j] == '0' && (s[j + 1] == 'x' || s[j + 1] == 'X');
    var from := if hex then j + 2 else j;
    var to := FirstOut(s, from, if hex then IsHexDigit else IsDigit);
    if to == from then None
    else
      RunIsHex(s, from, to, if hex then IsHexDigit else IsDigit);
      var v := DigitsValue(s[from..to], if hex then 16 else 10);
      Some(if negative then 0 - v else v)
  }

  /** A run of decimal or hexadecimal digits is a run of hexadecimal
      digits. */
  lemma {:induction false} RunIsHex(s: string, from: nat, to: nat, p: char -> bool)
    requires from <= to <= |s|
    requires p == IsHexDigit || p == IsDigit
    requires forall k :: from <= k < to ==> p(s[k])
    ensures forall i :: 0 <= i < |s[from..to]| ==> IsHexDigit(s[from..to][i])
  {
    forall i | 0 <= i < |s[from..to]| ensures IsHexDigit(s[from..to][i]) {
      assert s[from..to][i] == s[from + i];
    }
  }

  lemma {:induction false} DigitsValueOfRendering(n: nat)
    ensures forall i :: 0 <= i < |NatToString(n)| ==> IsHexDigit(NatToString(n)[i])
    ensures DigitsValue(NatToString(n), 10) == n
  {
    if n >= 10 {
      DigitsValueOfRendering(n / 10);
      var r := NatToString(n);
      assert r[..|r| - 1] == NatToString(n / 10);
    }
  }

  lemma {:induction false} LeadingDigitPositive(n: nat)
    requires n > 0
    ensures LeadingDigit(n) > 0
  {
    if n >= 10 {
      LeadingDigitPositive(n / 10);
    }
  }

  /** `parseInt` reads back every integer's decimal rendering. */
  lemma {:induction false} ParseIntOfString(n: int)
    ensures ParseInt(IntToString(n)) == Some(n)
  {
    ParseIntOfRendering(n, "");
    assert IntToString(n) + "" == IntToString(n);
  }

  /** A string made of an optional minus sign and a run of decimal digits,
      not read as a hexadecimal prefix, parses as the run's value. */
  lemma {:induction false} ParseDecimal(s: string, j: nat, to: nat)
    requires j < to <= |s|
    requires j == 0 || (j == 1 && s[0] == '-')
    requires forall k :: j <= k < to ==> IsDigit(s[k])
    requires to < |s| ==> !IsDigit(s[to])
    requires !(j + 1 < |s| && s[j] == '0' && (s[j + 1] == 'x' || s[j + 1] == 'X'))
    ensures var v := DigitsValue(s[j..to], 10);
      ParseInt(s) == Some(if j == 1 then 0 - v else v)
  {
    assert !IsSpace(s[0]);
    FirstOutAt(s, j, to, IsDigit);
  }

  /** Digits copied into a string are digits there. */
  lemma {:induction false} SliceDigits(s: string, j: nat, digits: string)
    requires j + |digits| <= |s| && s[j..j + |digits|] == digits
    requires forall i :: 0 <= i < |digits| ==> IsDigit(digits[i])
    ensures forall k :: j <= k < j + |digits| ==> IsDigit(s[k])
  {
    forall k | j <= k < j + |digits| ensures IsDigit(s[k]) {
      assert s[k] == s[j..j + |digits|][k - j];
    }
  }

  /** `parseInt` reads back every integer's decimal rendering, whatever
      text follows it, unless that text starts with a digit or, after "0",
      with the "x" of a hexadecimal prefix. */
  lemma {:induction false} ParseIntOfRendering(n: int, rest: string)
    requires rest == [] || (!IsDigit(rest[0]) && rest[0] != 'x' && rest[0] != 'X')
    ensures ParseInt(IntToString(n) + rest) == Some(n)
  {
    var m: nat := if n < 0 then 0 - n else n;
    var digits := NatToString(m);
    var sign: string := if n < 0 then "-" else "";
    assert IntToString(n) == sign + digits;
    if |digits| > 1 {
      NatToStringFirst(m);
      LeadingDigitPositive(m);
    }
    ParseSignedDigits(sign, digits, rest);
    DigitsValueOfRendering(m);
  }

  /** A string made of an optional minus sign, digits without a leading
      zero and a text that neither continues the digits nor turns "0" into
      a hexadecimal prefix parses as the digits' value, negated after the
      sign. */
  lemma {:induction false} ParseSignedDigits(sign: string, digits: string, rest: string)
    requires sign == "" || sign == "-"
    requires |digits| >= 1 && forall i :: 0 <= i < |digits| ==> IsDigit(digits[i])
    requires |digits| > 1 ==> digits[0] != '0'
    requires rest == [] || (!IsDigit(rest[0]) && rest[0] != 'x' && rest[0] != 'X')
    ensures var v := DigitsValue(digits, 10);
      ParseInt(sign + digits + rest) == Some(if sign == "-" then 0 - v else v)
  {
    var s := sign + digits + rest;
    var j := |sign|;
    var to := j + |digits|;
    assert s[j..to] == digits;
    SliceDigits(s, j, digits);
    if to < |s| {
      assert s[to] == rest[0];
    }
    if |digits| > 1 {
      assert s[j] == digits[0];
    } else if rest != [] {
      assert s[j + 1] == rest[0];
    }
    ParseDecimal(s, j, to);
  }

  /** Trailing text after the digits is ignored. */
  lemma {:induction false} ParseIntStopsAtNonDigit()
    ensures ParseInt("12abc") == Some(12)
  {
    var s := "12abc";
    assert FirstNonSpace(s, 0) == 0;
    assert !IsDigit(s[2]);
    assert FirstOut(s, 0, IsDigit) == 2;
    assert s[0..2] == "12";
    assert DigitsValue("12", 10) == 12 by {
      assert "12"[..1] == "1";
    }
  }

  /** No digit at all is NaN. */
  lemma {:induction false} ParseIntNoDigits()
    ensures ParseInt("abc") == None
  {
    assert FirstNonSpace("abc", 0) == 0;
  }

  /** Leading white space and a sign are read. */
  lemma {:induction false} ParseIntSigned()
    ensures ParseInt(" -7") == Some(-7)
  {
    var s := " -7";
    assert FirstNonSpace(s, 0) == 1;
    assert FirstOut(s, 2, IsDigit) == 3;
    assert s[2..3] == "7";
    assert DigitsValue("7", 10) == 7 by {
      assert "7"[..0] == "";
    }
  }

  /** A "0x" prefix switches to base 16: "0x" and a run of hexadecimal
      digits parse as the run's value, whatever non-digit text follows. */
  lemma {:induction false} ParseIntHex(h: string, rest: string)
    requires h != [] && forall i :: 0 <= i < |h| ==> IsHexDigit(h[i])
    requires rest == [] || !IsHexDigit(rest[0])
    ensures ParseInt("0x" + h + rest) == Some(DigitsValue(h, 16))
  {
    var s := "0x" + h + rest;
    assert !IsSpace(s[0]);
    assert s[2..2 + |h|] == h;
    forall j | 2 <= j < 2 + |h| ensures IsHexDigit(s[j]) {
      assert s[j] == h[j - 2];
    }
    if rest != [] {
      assert s[2 + |h|] == rest[0];
    }
    FirstOutAt(s, 2, 2 + |h|, IsHexDigit);
  }

  // ---------------------------------------------------------------------
  // Page arithmetic

  /** The numbers the page arithmetic can produce. */
  datatype Number = Finite(n: int) | Infinity | NaN

  /** `Math.ceil(total / limit)` for a count `total`. */
  function CeilDiv(total: nat, limit: Option<int>): Number
  {
    match limit
    case None => NaN
    case Some(l) =>
      if l > 0 then Finite((total + l - 1) / l)
      else if l < 0 then Finite(0 - total / (0 - l))
      else if total > 0 then Infinity
      else NaN
  }

  /** `a < b`; any comparison with NaN is false. */
  predicate Less(a: Option<int>, b: Number) {
    a.Some? && match b
      case Finite(n) => a.value < n
      case Infinity => true
      case NaN => false
  }

  /** `(page - 1) * limit` */
  function Skip(page: Option<int>, limit: Option<int>): Option<int> {
    if page.Some? && limit.Some? then Some((page.value - 1) * limit.value) else None
  }

  /** `hasPrev: page > 1` */
  predicate HasPrev(page: Option<int>) {
    page.Some? && page.value > 1
  }

  /** Multiplying by a positive limit keeps the order. */
  lemma {:induction false} MulLe(a: int, b: int, l: int)
    requires l > 0 && a <= b
    ensures a * l <= b * l
  {
    var d := b - a;
    assert b * l == a * l + d * l;
  }

  /** With a positive limit the page count is the least number of pages of
      `limit` items that hold `total` items. */
  lemma {:induction false} CeilDivLeast(total: nat, l: int)
    requires l > 0
    ensures CeilDiv(total, Some(l)).Finite?
    ensures var q := CeilDiv(total, Some(l)).n;
      q >= 0 && q * l >= total && (q == 0 || (q - 1) * l < total)
  {
    var x := total + l - 1;
    var q, r := x / l, x % l;
    assert x == q * l + r && 0 <= r < l;
    assert (q - 1) * l == q * l - l;
  }

  /** `hasNext: page < totalPages` says that items remain after this page. */
  lemma {:induction false} HasNextMeansMoreItems(total: nat, page: int, l: int)
    requires l > 0 && page >= 1
    ensures Less(Some(page), CeilDiv(total, Some(l))) <==> page * l < total
  {
    CeilDivLeast(total, l);
    var q := CeilDiv(total, Some(l)).n;
    if page < q {
      MulLe(page, q - 1, l);
    } else {
      MulLe(q, page, l);
    }
  }

  /** The item at position `k` of the sorted listing is shown on exactly
      one page, page `k / limit + 1`. */
  lemma {:induction false} EachItemOnOnePage(k: nat, page: int, l: int)
    requires l > 0
    ensures var s := Skip(Some(page), Some(l)).value;
      s <= k < s + l <==> page == k / l + 1
  {
    var s := (page - 1) * l;
    var d, r := k / l, k % l;
    assert k == d * l + r && 0 <= r < l;
    assert s + l == page * l;
    assert (d + 1) * l == d * l + l;
    if page < d + 1 {
      MulLe(page, d, l);
    } else if page > d + 1 {
      MulLe(d + 1, page - 1, l);
    }
  }

  /** A zero limit makes the page count Infinity (or NaN with no items),
      so `hasNext` holds on every page of a non-empty listing. */
  lemma {:induction false} ZeroLimit(total: nat, page: int)
    ensures total > 0 ==> CeilDiv(total, Some(0)) == Infinity && Less(Some(page), CeilDiv(total, Some(0)))
    ensures total == 0 ==> CeilDiv(total, Some(0)) == NaN && !Less(Some(page), CeilDiv(total, Some(0)))
  {
  }
}
