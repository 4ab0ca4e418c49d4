/** The stand-alone input validators: phone number, password, name, text
    sanitising and MongoDB object ids. A missing argument (`undefined` or
    `null`) is `None`. */
module Validators {
  import opened Wrappers
  import opened Text

  /** Every character is an ASCII digit (`\d*`). */
  predicate AllDigits(s: string) {
    s == [] || (IsDigit(s[0]) && AllDigits(s[1..]))
  }

  /** Every character is a hexadecimal digit of either case (`[0-9a-fA-F]*`). */
  predicate AllHex(s: string) {
    s == [] || (IsHexDigit(s[0]) && AllHex(s[1..]))
  }

  lemma {:induction false} AllDigitsAt(s: string)
    ensures AllDigits(s) <==> forall i :: 0 <= i < |s| ==> IsDigit(s[i])
  {
    if s != [] {
      AllDigitsAt(s[1..]);
      assert forall i :: 1 <= i < |s| ==> s[i] == s[1..][i - 1];
    }
  }

  lemma {:induction false} AllHexAt(s: string)
    ensures AllHex(s) <==> forall i :: 0 <= i < |s| ==> IsHexDigit(s[i])
  {
    if s != [] {
      AllHexAt(s[1..]);
      assert forall i :: 1 <= i < |s| ==> s[i] == s[1..][i - 1];
    }
  }

  /** `/^\+998\d{9}$/`, shared by the validator, the user schema and the
      request validation. */
  predicate PhonePattern(phone: string) {
    |phone| == 13 && phone[..4] == "+998" && AllDigits(phone[4..])
  }

  /** `validatePhoneNumber`: "+998" followed by exactly nine ASCII digits,
      thirteen characters in all. */
  function ValidatePhoneNumber(phone: string): (b: bool)
    ensures b <==> |phone| == 13 && phone[..4] == "+998"
                   && forall i :: 4 <= i < |phone| ==> IsDigit(phone[i])
  {
    if |phone| != 13 then false
    else
      AllDigitsAt(phone[4..]);
      PhonePattern(phone)
  }

  /** `validatePassword`: `password && password.length >= 6`. */
  function ValidatePassword(password: Option<string>): (b: bool)
    ensures b <==> password.Some? && |password.value| >= 6
  {
    match password
    case None => false
    case Some(p) => p != "" && |p| >= 6
  }

  /** `validateName`: the trimmed name has 2 to 50 characters. */
  function ValidateName(name: Option<string>): (b: bool)
    ensures b ==> name.Some? && name.value != ""
    ensures b <==> name.Some? && 2 <= |Trim(name.value)| <= 50
  {
    match name
    case None => false
    case Some(n) => n != "" && 2 <= |Trim(n)| && |Trim(n)| <= 50
  }

  const MaxTextLength: nat := 10000

  /** `sanitizeText`: "" for a missing or empty text, otherwise at most the
      first 10000 characters of the trimmed text. */
  function SanitizeText(text: Option<string>): (r: string)
  {
    match text
    case None => ""
    case Some(t) => if t == "" then "" else Prefix(Trim(t), MaxTextLength)
  }

  /** The sanitised text is a prefix of the trimmed text, of at most 10000
      characters, does not start with white space, and is the whole trimmed
      text exactly when that fits. */
  lemma {:induction false} SanitizeTextShape(t: string)
    ensures var r := SanitizeText(Some(t));
      && |r| <= MaxTextLength
      && r == Trim(t)[..|r|]
      && (r == Trim(t) <==> |Trim(t)| <= MaxTextLength)
      && (r == [] || !IsSpace(r[0]))
  {
    if t != "" && Trim(t) != [] {
      assert SanitizeText(Some(t))[0] == Trim(t)[0];
    }
  }

  /** A text that is already trimmed and short enough is left as it is. */
  lemma {:induction false} SanitizeTextKeepsClean(t: string)
    requires |t| <= MaxTextLength
    requires t == [] || (!IsSpace(t[0]) && !IsSpace(t[|t| - 1]))
    ensures SanitizeText(Some(t)) == t
  {
    TrimOfTrimmed(t);
  }

  /** `isValidObjectId`: exactly 24 hexadecimal digits of either case. */
  function IsValidObjectId(id: string): (b: bool)
    ensures b <==> |id| == 24 && forall i :: 0 <= i < |id| ==> IsHexDigit(id[i])
  {
    AllHexAt(id);
    |id| == 24 && AllHex(id)
  }
}
