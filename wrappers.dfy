/** Failure-compatible wrappers shared by every module of the model. */
module Wrappers {

  /** A value that may be missing: a Python `None`, an absent key, an absent row. */
  datatype Option<+T> = None | Some(value: T)

  /** The outcome of an operation that either succeeds or fails with an error value. */
  datatype Result<+T, +E> = Ok(value: T) | Err(error: E)
}
