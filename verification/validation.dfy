/** The request validation chains (express-validator) and the handler that
    turns their failures into one 400 error. A chain runs every validator
    on its field and reports each failure with the message attached to it;
    an `optional()` field is checked only when present. The value a
    validator sees is the field's string form, "" when the field is
    missing. A field is `None` when it is missing. Lengths are counted as
    `isLength` counts them. */
module Validation {
  import opened Wrappers
  import opened Text
  import opened Validators
  import opened AppErrors

  /** A validator's contribution: no message when it passes, its message
      when it fails. */
  function Check(ok: bool, message: string): (r: seq<string>)
    ensures r == [] <==> ok
  {
    if ok then [] else [message]
  }

  /** The two variation selectors, U+FE0E and U+FE0F, that `isLength` does
      not count. */
  predicate IsVariationSelector(c: char) {
    c == '\U{FE0E}' || c == '\U{FE0F}'
  }

  /** validator.js's `isLength` count: the characters of the string, a
      surrogate pair counting once, without the variation selectors. */
  function IsLength(s: string): (n: nat)
    ensures n <= |s|
  {
    if s == [] then 0 else (if IsVariationSelector(s[0]) then 0 else 1) + IsLength(s[1..])
  }

  /** Without variation selectors `isLength` is the length. */
  lemma {:induction false} IsLengthPlain(s: string)
    requires forall i :: 0 <= i < |s| ==> !IsVariationSelector(s[i])
    ensures IsLength(s) == |s|
  {
    if s != [] {
      assert forall i :: 0 <= i < |s[1..]| ==> s[1..][i] == s[i + 1];
      IsLengthPlain(s[1..]);
    }
  }

  /** The string a validator sees for a field. */
  function FieldString(v: Option<string>): string {
    v.GetOr("")
  }

  /** Some character of `s` is in the class `p`. */
  predicate HasChar(s: string, p: char -> bool) {
    s != [] && (p(s[0]) || HasChar(s[1..], p))
  }

  lemma {:induction false} HasCharAt(s: string, p: char -> bool)
    ensures HasChar(s, p) <==> exists i :: 0 <= i < |s| && p(s[i])
  {
    if s != [] {
      HasCharAt(s[1..], p);
      assert forall i :: 1 <= i < |s| ==> s[i] == s[1..][i - 1];
      if HasChar(s[1..], p) {
        var i :| 0 <= i < |s[1..]| && p(s[1..][i]);
        assert p(s[i + 1]);
      }
    }
  }

  /** The characters before the first line terminator: what `.*` at the
      start of the string can reach. */
  function FirstLine(s: string): (r: string)
    ensures |r| <= |s| && r == s[..|r|]
    ensures forall i :: 0 <= i < |r| ==> !IsLineTerminator(r[i])
    ensures |r| < |s| ==> IsLineTerminator(s[|r|])
  {
    if s == [] || IsLineTerminator(s[0]) then [] else [s[0]] + FirstLine(s[1..])
  }

  /** The first line ends at the first line terminator, or at the end. */
  lemma {:induction false} FirstLineEndsAt(s: string, k: nat)
    requires k <= |s| && (k < |s| ==> IsLineTerminator(s[k]))
    requires forall j :: 0 <= j < k ==> !IsLineTerminator(s[j])
    ensures FirstLine(s) == s[..k]
  {
  }

  // ---------------------------------------------------------------------
  // The chains

  /** `/^(?=.*[a-zA-Z])(?=.*\d)/`: both look-aheads start at position 0, and
      `.` stops at a line terminator, so the letter and the digit must both
      be on the first line. */
  predicate PasswordPattern(p: string) {
    HasChar(FirstLine(p), IsAsciiLetter) && HasChar(FirstLine(p), IsDigit)
  }

  /** `[a-zA-ZА-Яа-яЁёўқғҳ\s]`: without the `i` flag, so the upper-case
      Ў, Қ, Ғ and Ҳ are not in the class. */
  predicate IsNameChar(c: char) {
    || IsAsciiLetter(c) || ('А' <= c <= 'Я') || ('а' <= c <= 'я')
    || c == 'Ё' || c == 'ё' || c == 'ў' || c == 'қ' || c == 'ғ' || c == 'ҳ'
    || IsSpace(c)
  }

  /** `/^[class]+$/` */
  predicate AllNameChars(s: string) {
    s != [] && IsNameChar(s[0]) && (|s| == 1 || AllNameChars(s[1..]))
  }

  lemma {:induction false} AllNameCharsAt(s: string)
    ensures AllNameChars(s) <==> s != [] && forall i :: 0 <= i < |s| ==> IsNameChar(s[i])
  {
    if |s| > 1 {
      AllNameCharsAt(s[1..]);
      assert forall i :: 1 <= i < |s| ==> s[i] == s[1..][i - 1];
    }
  }

  function NameLabel(fieldName: string): string {
    if fieldName == "firstName" then "Ism" else "Familiya"
  }

  /** `nameValidation(fieldName)`: trimmed, 2 to 50 characters, letters of
      the class and white space only. */
  function NameMessages(fieldName: string, value: Option<string>): seq<string> {
    var v := Trim(FieldString(value));
    Check(2 <= IsLength(v) <= 50, NameLabel(fieldName) + " 2-50 belgi orasida bo'lishi kerak")
    + Check(AllNameChars(v), NameLabel(fieldName) + " faqat harflardan iborat bo'lishi kerak")
  }

  const PhoneMessage := "Telefon raqami +998901234567 formatida bo'lishi kerak"

  /** `phoneValidation()` */
  function PhoneMessages(value: Option<string>): seq<string> {
    Check(PhonePattern(FieldString(value)), PhoneMessage)
  }

  /** `passwordValidation()`: at least six characters, and a letter and a
      digit on the first line. */
  function PasswordMessages(value: Option<string>): seq<string> {
    var p := FieldString(value);
    Check(IsLength(p) >= 6, "Parol kamida 6 belgidan iborat bo'lishi kerak")
    + Check(PasswordPattern(p), "Parol kamida bitta harf va raqam bo'lishi kerek")
  }

  /** `validateSignup`, up to the error handler: the failure messages in
      chain order. */
  function SignupMessages(firstName: Option<string>, lastName: Option<string>, phoneNumber: Option<string>,
                          password: Option<string>, confirmPassword: Option<string>): seq<string>
  {
    NameMessages("firstName", firstName) + NameMessages("lastName", lastName)
    + PhoneMessages(phoneNumber) + PasswordMessages(password)
    + Check(confirmPassword == password, "Parollar mos kelmaydi")
  }

  /** Trimmed 2 to 50 characters, all of the name class. */
  predicate NameAccepted(value: Option<string>) {
    var v := Trim(FieldString(value));
    2 <= IsLength(v) <= 50 && forall i :: 0 <= i < |v| ==> IsNameChar(v[i])
  }

  /** An accepted name holds no variation selector, so its `isLength` is its
      length. */
  lemma {:induction false} NameLength(value: Option<string>)
    requires NameAccepted(value)
    ensures |Trim(FieldString(value))| == IsLength(Trim(FieldString(value)))
  {
    var v := Trim(FieldString(value));
    forall i | 0 <= i < |v| ensures !IsVariationSelector(v[i]) {
      assert IsNameChar(v[i]);
    }
    IsLengthPlain(v);
  }

  lemma {:induction false} NameMessagesEmpty(fieldName: string, value: Option<string>)
    ensures NameMessages(fieldName, value) == [] <==> NameAccepted(value)
  {
    AllNameCharsAt(Trim(FieldString(value)));
  }

  /** Some character of `s` in the class `p` comes before any line
      terminator. */
  ghost predicate BeforeLineBreak(s: string, p: char -> bool) {
    exists i :: 0 <= i < |s| && p(s[i]) && forall j :: 0 <= j < i ==> !IsLineTerminator(s[j])
  }

  lemma {:induction false} FirstLineHas(s: string, p: char -> bool)
    requires forall c :: p(c) ==> !IsLineTerminator(c)
    ensures HasChar(FirstLine(s), p) <==> BeforeLineBreak(s, p)
  {
    var line := FirstLine(s);
    HasCharAt(line, p);
    if BeforeLineBreak(s, p) {
      var i :| 0 <= i < |s| && p(s[i]) && forall j :: 0 <= j < i ==> !IsLineTerminator(s[j]);
      assert line[i] == s[i];
    }
    if HasChar(line, p) {
      var i :| 0 <= i < |line| && p(line[i]);
      assert s[i] == line[i];
      assert forall j :: 0 <= j < i ==> s[j] == line[j];
    }
  }

  /** The password chain passes exactly when the password has six
      characters and a letter and a digit before any line break. */
  lemma {:induction false} PasswordAccepts(password: Option<string>)
    ensures PasswordMessages(password) == [] <==>
      && IsLength(FieldString(password)) >= 6
      && BeforeLineBreak(FieldString(password), IsAsciiLetter)
      && BeforeLineBreak(FieldString(password), IsDigit)
  {
    FirstLineHas(FieldString(password), IsAsciiLetter);
    FirstLineHas(FieldString(password), IsDigit);
  }

  /** Sign-up passes exactly when both names are accepted, the phone number
      has the "+998" form, the password chain passes and the confirmation
      equals the password. */
  lemma {:induction false} SignupAccepts(firstName: Option<string>, lastName: Option<string>, phoneNumber: Option<string>,
                      password: Option<string>, confirmPassword: Option<string>)
    ensures SignupMessages(firstName, lastName, phoneNumber, password, confirmPassword) == [] <==>
      && NameAccepted(firstName) && NameAccepted(lastName)
      && PhonePattern(FieldString(phoneNumber))
      && PasswordMessages(password) == []
      && confirmPassword == password
  {
    NameMessagesEmpty("firstName", firstName);
    NameMessagesEmpty("lastName", lastName);
  }

  /** A request sign-up accepts also passes the stand-alone validators; the
      middleware is the stricter of the two. */
  lemma {:induction false} SignupStricterThanValidators(firstName: Option<string>, lastName: Option<string>, phoneNumber: Option<string>,
                                     password: Option<string>, confirmPassword: Option<string>)
    requires SignupMessages(firstName, lastName, phoneNumber, password, confirmPassword) == []
    ensures ValidateName(firstName) && ValidateName(lastName)
    ensures phoneNumber.Some? && ValidatePhoneNumber(phoneNumber.value)
    ensures ValidatePassword(password)
  {
    NameMessagesEmpty("firstName", firstName);
    NameMessagesEmpty("lastName", lastName);
    NameLength(firstName);
    NameLength(lastName);
  }

  /** The stand-alone password validator accepts "abcdef"; the middleware
      wants a digit too. */
  lemma {:induction false} PasswordNeedsDigit()
    ensures ValidatePassword(Some("abcdef"))
    ensures PasswordMessages(Some("abcdef")) != []
  {
    FirstLineEndsAt("abcdef", 6);
    assert "abcdef"[..6] == "abcdef";
    NoDigitInLetters();
  }

  /** A digit after a line break is not seen by the pattern. */
  lemma {:induction false} PasswordDigitAfterLineBreak()
    ensures PasswordMessages(Some("abcdef\n123")) != []
  {
    var p := "abcdef\n123";
    FirstLineEndsAt(p, 6);
    assert p[..6] == "abcdef";
    NoDigitInLetters();
    assert !PasswordPattern(p);
  }

  lemma {:induction false} NoDigitInLetters()
    ensures !HasChar("abcdef", IsDigit)
  {
    HasCharAt("abcdef", IsDigit);
  }

  /** A variation selector after text without one adds nothing to the
      `isLength` count. */
  lemma {:induction false} SelectorAfterPlain(s: string, c: char)
    requires forall i :: 0 <= i < |s| ==> !IsVariationSelector(s[i])
    requires IsVariationSelector(c)
    ensures IsLength(s + [c]) == |s|
  {
    if s == [] {
      assert [c][1..] == [];
    } else {
      assert (s + [c])[1..] == s[1..] + [c];
      SelectorAfterPlain(s[1..], c);
    }
  }

  /** A variation selector is not counted: nine letters followed by U+FE0F
      are ten characters, but too short for a document. */
  lemma {:induction false} SelectorNotCounted()
    ensures |"abcdefghi\U{FE0F}"| == 10
    ensures DocumentMessages(Some("abcdefghi\U{FE0F}"), None, None) != []
  {
    var letters := "abcdefghi";
    var t := letters + ['\U{FE0F}'];
    assert t == "abcdefghi\U{FE0F}";
    SelectorAfterPlain(letters, '\U{FE0F}');
    TrimOfTrimmed(t);
  }

  /** Upper-case Қ is not in the name class. */
  lemma {:induction false} CapitalQaRejected()
    ensures !NameAccepted(Some("Қодир"))
  {
    TrimOfTrimmed("Қодир");
  }

  const LoginPasswordMessage := "Parol kiriting"

  /** `validateLogin` */
  function LoginMessages(phoneNumber: Option<string>, password: Option<string>): seq<string> {
    PhoneMessages(phoneNumber) + Check(FieldString(password) != "", LoginPasswordMessage)
  }

  /** An `optional()` chain: nothing to report when the field is missing. */
  function Optional(value: Option<string>, messages: seq<string>): seq<string> {
    if value.None? then [] else messages
  }

  /** `validateUpdateUser`: the name chains, each only when its field is sent. */
  function UpdateUserMessages(firstName: Option<string>, lastName: Option<string>): seq<string> {
    Optional(firstName, NameMessages("firstName", firstName))
    + Optional(lastName, NameMessages("lastName", lastName))
  }

  /** Trimmed length between `lo` and `hi`. */
  function TrimmedLength(value: Option<string>, lo: nat, hi: nat, message: string): seq<string> {
    var n := IsLength(Trim(FieldString(value)));
    Check(lo <= n <= hi, message)
  }

  /** `isIn(values)` on an optional field. */
  function OneOf(value: Option<string>, values: seq<string>, message: string): seq<string> {
    Optional(value, Check(FieldString(value) in values, message))
  }

  const Languages: seq<string> := ["uz", "kaa", "ru"]
  const TextScripts: seq<string> := ["latin", "cyrillic"]
  const DocumentStyles: seq<string> := ["professional", "academic", "literary", "formal", "friendly", "humorous"]
  const SongStyles: seq<string> := ["classik", "rep", "adabiy", "dardli", "hkz"]

  /** `validateText` */
  function TextMessages(text: Option<string>, language: Option<string>, script: Option<string>): seq<string> {
    TrimmedLength(text, 1, 10000, "Matn 1-10000 belgi orasida bo'lishi kerak")
    + OneOf(language, Languages, "Til uz, kaa yoki ru bo'lishi kerak")
    + OneOf(script, TextScripts, "Alifbo latin yoki cyrillic bo'lishi kerak")
  }

  /** `validateDocumentGenerator`; `level` is the numeric body value. */
  function DocumentMessages(text: Option<string>, style: Option<string>, level: Option<int>): seq<string> {
    TrimmedLength(text, 10, 10000, "Matn 10-10000 belgi orasida bo'lishi kerak")
    + OneOf(style, DocumentStyles, "Noto'g'ri stil")
    + (if level.None? then [] else Check(1 <= level.value <= 5, "Daraja 1-5 orasida bo'lishi kerak"))
  }

  /** `validateSongGenerator`: `conditions` is not trimmed. */
  function SongMessages(topic: Option<string>, style: Option<string>, conditions: Option<string>): seq<string> {
    TrimmedLength(topic, 3, 200, "Mavzu 3-200 belgi orasida bo'lishi kerak")
    + OneOf(style, SongStyles, "Noto'g'ri qo'shiq uslubi")
    + Optional(conditions, Check(IsLength(FieldString(conditions)) <= 500, "Shartlar 500 belgidan kam bo'lishi kerak"))
  }

  /** `validateTransliteration` */
  function TransliterationMessages(text: Option<string>, targetScript: Option<string>): seq<string> {
    TrimmedLength(text, 1, 10000, "Matn 1-10000 belgi orasida bo'lishi kerak")
    + OneOf(targetScript, TextScripts, "Maqsadli alifbo latin yoki cyrillic bo'lishi kerek")
  }

  /** The text chain passes exactly when the trimmed text has 1 to 10000
      characters and each optional field, when sent, takes an allowed value. */
  lemma {:induction false} TextAccepts(text: Option<string>, language: Option<string>, script: Option<string>)
    ensures TextMessages(text, language, script) == [] <==>
      && 1 <= IsLength(Trim(FieldString(text))) <= 10000
      && (language.Some? ==> language.value in {"uz", "kaa", "ru"})
      && (script.Some? ==> script.value in {"latin", "cyrillic"})
  {
  }

  /** The document chain passes exactly when the trimmed text has 10 to
      10000 characters, the style (when sent) is one of the six, and the
      level (when sent) is in 1..5. */
  lemma {:induction false} DocumentAccepts(text: Option<string>, style: Option<string>, level: Option<int>)
    ensures DocumentMessages(text, style, level) == [] <==>
      && 10 <= IsLength(Trim(FieldString(text))) <= 10000
      && (style.Some? ==> style.value in DocumentStyles)
      && (level.Some? ==> 1 <= level.value <= 5)
  {
  }

  /** The song chain passes exactly when the trimmed topic has 3 to 200
      characters, the style (when sent) is one of the five, and the
      conditions (when sent) have at most 500 characters. */
  lemma {:induction false} SongAccepts(topic: Option<string>, style: Option<string>, conditions: Option<string>)
    ensures SongMessages(topic, style, conditions) == [] <==>
      && 3 <= IsLength(Trim(FieldString(topic))) <= 200
      && (style.Some? ==> style.value in SongStyles)
      && (conditions.Some? ==> IsLength(conditions.value) <= 500)
  {
  }

  /** The login chain passes exactly when the phone number has the "+998"
      form and a non-empty password is sent. */
  lemma {:induction false} LoginAccepts(phoneNumber: Option<string>, password: Option<string>)
    ensures LoginMessages(phoneNumber, password) == [] <==>
      PhonePattern(FieldString(phoneNumber)) && password.Some? && password.value != ""
  {
  }

  /** An update passes exactly when each name that is sent is accepted;
      an update sending neither name always passes. */
  lemma {:induction false} UpdateUserAccepts(firstName: Option<string>, lastName: Option<string>)
    ensures UpdateUserMessages(firstName, lastName) == [] <==>
      (firstName.Some? ==> NameAccepted(firstName)) && (lastName.Some? ==> NameAccepted(lastName))
  {
    NameMessagesEmpty("firstName", firstName);
    NameMessagesEmpty("lastName", lastName);
  }

  /** The transliteration chain passes exactly when the trimmed text has 1
      to 10000 characters and the target script, when sent, is "latin" or
      "cyrillic". */
  lemma {:induction false} TransliterationAccepts(text: Option<string>, targetScript: Option<string>)
    ensures TransliterationMessages(text, targetScript) == [] <==>
      && 1 <= IsLength(Trim(FieldString(text))) <= 10000
      && (targetScript.Some? ==> targetScript.value in {"latin", "cyrillic"})
  {
  }

  /** `handleValidationErrors`: no failure lets the request through;
      otherwise one 400 error whose message joins all failure messages with
      ". ". */
  function HandleValidationErrors(messages: seq<string>): (r: Option<AppError>)
    ensures r.None? <==> messages == []
    ensures r.Some? ==> r.value.statusCode == 400 && r.value.status == "fail"
  {
    ClientErrorsFail(400);
    if messages == [] then None else Some(MakeAppError(Join(messages, ". "), 400))
  }

  /** Every failure message can be read in the error's message. */
  lemma {:induction false} HandledErrorNamesEveryFailure(messages: seq<string>, i: nat)
    requires i < |messages|
    ensures exists k :: OccursAt(HandleValidationErrors(messages).value.message, messages[i], k)
  {
    assert HandleValidationErrors(messages) == Some(MakeAppError(Join(messages, ". "), 400));
    var k := JoinContainsPart(messages, ". ", i);
  }
}
