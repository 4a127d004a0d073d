/** Option and Result datatypes shared by every module of the model. */
module Wrappers {

  /** A PHP value that may be `null`. */
  datatype Option<+T> = None | Some(value: T)

  /** The outcome of an operation that either returns a value or throws. */
  datatype Result<+R, +E> = Success(value: R) | Failure(error: E)

  /** The outcome of an operation that either completes or throws. */
  datatype Outcome<+E> = Pass | Fail(error: E)

  /** PHP's string conversion of a string that may be `null`. */
  function TextOf(s: Option<string>): string {
    if s.Some? then s.value else ""
  }
}
