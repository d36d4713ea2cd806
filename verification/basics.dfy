/** Option and Result, the failure-carrying wrappers used throughout the model. */
module Basics {

  datatype Option<+T> = None | Some(value: T)

  /** A computation that either yields a value or raises an error (a thrown exception in the source). */
  datatype Result<+T, +E> = Ok(value: T) | Err(error: E)
}
