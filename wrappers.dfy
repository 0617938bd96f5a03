/** Failure-compatible wrappers shared by every module of the model. */
module Wrappers {

  /** A value that may be missing, as Python's `None`. */
  datatype Option<+T> = None | Some(value: T)

  /** The outcome of an operation that raises in the source program. */
  datatype Result<+T, +E> = Ok(value: T) | Err(error: E)
}
