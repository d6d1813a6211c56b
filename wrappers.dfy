/** Failure-carrying values used in place of JavaScript's `null`/`undefined`
    and thrown errors. */
module Wrappers {

  /** A value that may be absent (`undefined`/`null` in the source). */
  datatype Option<+T> = None | Some(value: T)

  /** The outcome of an operation that either returns a value or throws. */
  datatype Result<+T, +E> = Success(value: T) | Failure(error: E)

  /** The outcome of a check that either passes or throws. */
  datatype Outcome<+E> = Pass | Fail(error: E)
}
