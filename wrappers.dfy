/** Failure-carrying values standing in for the exceptions the program throws. */
module Wrappers {

  datatype Option<+T> = None | Some(value: T)

  /** A computation that produced a value or failed with an error. */
  datatype Result<+T, +E> = Success(value: T) | Failure(error: E)

  /** A computation that produced no value and either passed or failed. */
  datatype Outcome<+E> = Pass | Fail(error: E)
}
