/** Failure-compatible result types used throughout the model: an optional
    JavaScript value, a value-or-exception, and a pass-or-exception. */
module Wrappers {

  /** A value that may be absent (`undefined` in JavaScript). */
  datatype Option<+T> = None | Some(value: T)

  /** A computation that returns a value or throws. */
  datatype Result<+R, +E> = Success(value: R) | Failure(error: E)

  /** A computation that returns nothing or throws. */
  datatype Outcome<+E> = Pass | Fail(error: E)
}
