/** Failure-compatible wrappers used to model Python's `None` and raised exceptions. */
module Wrappers {

  /** A value that may be absent (Python's `Optional`). */
  datatype Option<+T> = None | Some(value: T)

  /** The result of a call that either returns a value or raises an error. */
  datatype Result<+R, +E> = Success(value: R) | Failure(error: E)

  /** The result of a call that either returns nothing or raises an error. */
  datatype Outcome<+E> = Pass | Fail(error: E)
}
