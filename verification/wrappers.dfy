/** Failure-carrying results shared by every module of the model. */
module Wrappers {

  datatype Option<+T> = None | Some(value: T)

  /** The value of `o`, or `default` when `o` is absent (JavaScript's `o || default`
      for values that are never the empty string). */
  function GetOr<T>(o: Option<T>, default: T): T {
    match o
    case Some(v) => v
    case None => default
  }

  /** What a rejected backing-store call carries: `isError` says whether the thrown
      value is an `Error` instance, `message` is its message. */
  datatype Fault = Fault(isError: bool, message: string)

  /** The text a store records for a caught failure: the error's own message when it
      is an `Error`, the store's fallback text otherwise. */
  function Describe(f: Fault, fallback: string): (text: string)
    ensures f.isError ==> text == f.message
    ensures !f.isError ==> text == fallback
  {
    if f.isError then f.message else fallback
  }

  /** A backing-store call that returns rows (or an id) or fails. */
  datatype Result<+T> = Ok(value: T) | Err(fault: Fault)

  /** A backing-store call, or a store operation that rethrows, with no value. */
  datatype Outcome = Pass | Fail(fault: Fault)
}
