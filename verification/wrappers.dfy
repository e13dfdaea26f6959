/** Option, Result and Outcome values used for the source's nulls and exceptions. */
module Wrappers {

  datatype Option<+T> = None | Some(value: T)

  /** A value, or the exception the source would have thrown instead. */
  datatype Result<+T, +E> = Success(value: T) | Failure(error: E)

  /** Normal completion, or the exception the source would have thrown. */
  datatype Outcome<+E> = Pass | Fail(error: E)
}
