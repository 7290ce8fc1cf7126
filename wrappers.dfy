/** Failure-carrying values for the popup's exceptions and foreign calls. */
module Wrappers {

  /** A value that may be absent: a missing key, a timer that is not scheduled. */
  datatype Option<+T> = None | Some(value: T) {
    function GetOr(default: T): T {
      match this
      case Some(v) => v
      case None => default
    }
  }

  /** What an operation that may throw produces: its value, or the thrown error's message. */
  datatype Result<+R> = Success(value: R) | Failure(error: string)

  /** What an operation that only throws or returns produces. */
  datatype Outcome = Pass | Fail(error: string)
}
