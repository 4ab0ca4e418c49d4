/** Option, Result, and the request values a JSON body can carry. */
module Wrappers {

  datatype Option<+T> = None | Some(value: T) {
    function GetOr(default: T): T {
      match this
      case Some(v) => v
      case None => default
    }
  }

  /** A success value, or a request's error message. */
  datatype Result<+T> = Ok(value: T) | Err(error: string)

  /** A value read from a parsed JSON request body or query string. `Missing`
      is JavaScript's `undefined`; numbers are restricted to integers. */
  datatype Value =
    | Missing
    | Null
    | Bool(b: bool)
    | Num(n: int)
    | Str(s: string)
    | Arr(items: seq<Value>)
    | Obj

  /** JavaScript truthiness of a value (no NaN among the modelled numbers). */
  predicate Truthy(v: Value) {
    match v
    case Missing => false
    case Null => false
    case Bool(b) => b
    case Num(n) => n != 0
    case Str(s) => s != ""
    case Arr(_) => true
    case Obj => true
  }

  /** `!x || typeof x !== "string"`: the common "text is required" guard. */
  predicate IsNonEmptyString(v: Value) {
    v.Str? && v.s != ""
  }
}
