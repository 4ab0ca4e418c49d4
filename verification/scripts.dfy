/** The alphabets a text can be written in, and letter counting with a
    character class (`(text.match(/[class]/g) || []).length`). */
module Scripts {

  /** The values the script detectors return: "cyrillic", "latin",
      "mixed" and (for one detector) "unknown". */
  datatype Script = Cyrillic | Latin | Mixed | Unknown
  {
    function Name(): string {
      match this
      case Cyrillic => "cyrillic"
      case Latin => "latin"
      case Mixed => "mixed"
      case Unknown => "unknown"
    }
  }

  /** The number of characters of `s` in the class `p`. */
  function Count(s: string, p: char -> bool): (n: nat)
    ensures n <= |s|
    ensures n == 0 <==> forall i :: 0 <= i < |s| ==> !p(s[i])
  {
    if s == [] then 0
    else
      var rest := Count(s[1..], p);
      assert forall i :: 1 <= i < |s| ==> s[i] == s[1..][i - 1];
      (if p(s[0]) then 1 else 0) + rest
  }

  lemma {:induction false} CountAppend(a: string, b: string, p: char -> bool)
    ensures Count(a + b, p) == Count(a, p) + Count(b, p)
  {
    if a == [] {
      assert a + b == b;
    } else {
      assert (a + b)[1..] == a[1..] + b;
      CountAppend(a[1..], b, p);
    }
  }
}
