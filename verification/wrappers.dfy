/** Failure-compatible wrappers used throughout the model. */
module Wrappers {

  datatype Option<+T> = None | Some(value: T)

  /** The outcome of an operation that either produces a value or reports an error. */
  datatype Result<+T, +E> = Ok(value: T) | Err(error: E)

  /** The outcome of a check that either passes or reports an error. */
  datatype Outcome<+E> = Pass | Fail(error: E)
}
