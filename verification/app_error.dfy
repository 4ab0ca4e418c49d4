/** `AppError`: an operational error carrying an HTTP status code, whose
    `status` is "fail" for client errors and "error" otherwise. The stack
    trace capture is not modelled. */
module AppErrors {
  import opened Text

  datatype AppError = AppError(message: string, statusCode: int, status: string, isOperational: bool)

  /** `${statusCode}.startsWith("4")`: the decimal rendering begins with 4. */
  predicate RendersWithFour(statusCode: int) {
    IntToString(statusCode)[0] == '4'
  }

  /** `new AppError(message, statusCode)` */
  function MakeAppError(message: string, statusCode: int): (e: AppError)
    ensures e.message == message && e.statusCode == statusCode
    ensures e.isOperational
    ensures e.status == "fail" || e.status == "error"
    ensures e.status == "fail" <==> RendersWithFour(statusCode)
  {
    AppError(message, statusCode, if RendersWithFour(statusCode) then "fail" else "error", true)
  }

  /** The rule is about the leading decimal digit, not the range 400..499:
      a non-negative code is "fail" exactly when its most significant digit
      is 4, and a negative code (rendered with a minus sign) is "error". */
  lemma {:induction false} StatusByLeadingDigit(statusCode: int)
    ensures statusCode >= 0 ==>
      (MakeAppError("", statusCode).status == "fail" <==> LeadingDigit(statusCode) == 4)
    ensures statusCode < 0 ==> MakeAppError("", statusCode).status == "error"
  {
    if statusCode >= 0 {
      NatToStringFirst(statusCode);
    }
  }

  /** Every client error code 400..499 is "fail". */
  lemma {:induction false} ClientErrorsFail(statusCode: int)
    requires 400 <= statusCode <= 499
    ensures MakeAppError("", statusCode).status == "fail"
  {
    StatusByLeadingDigit(statusCode);
    assert LeadingDigit(statusCode) == LeadingDigit(statusCode / 10) == LeadingDigit(statusCode / 100);
  }

  /** Every server error code 500..599, e.g. 500 and 503, is "error". */
  lemma {:induction false} ServerErrorsAreErrors(statusCode: int)
    requires 500 <= statusCode <= 599
    ensures MakeAppError("", statusCode).status == "error"
  {
    StatusByLeadingDigit(statusCode);
    assert LeadingDigit(statusCode) == LeadingDigit(statusCode / 10) == LeadingDigit(statusCode / 100);
  }

  /** Codes outside 400..499 can still be "fail": 4 and 4000 both are. */
  lemma {:induction false} FailBeyondClientRange()
    ensures MakeAppError("", 4).status == "fail"
    ensures MakeAppError("", 4000).status == "fail"
  {
    StatusByLeadingDigit(4);
    StatusByLeadingDigit(4000);
    assert LeadingDigit(4000) == LeadingDigit(400) == LeadingDigit(40) == 4;
  }
}
