/** Failure-carrying values shared by every module of the model. */
module Wrappers {

  /** A value that may be absent (JavaScript `null` / `undefined`). */
  datatype Option<+T> = None | Some(value: T) {
    function GetOr(default: T): T {
      match this
      case Some(v) => v
      case None => default
    }
  }

  /** A computation that yields a value or an error (a rejected promise, a thrown Error). */
  datatype Result<+R, +E> = Success(value: R) | Failure(error: E)

  /** A computation with no value that passes or fails with an error (an awaited side effect). */
  datatype Outcome<+E> = Pass | Fail(error: E)
}
