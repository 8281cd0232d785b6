/** Option and Result, the two failure-carrying wrappers the rest of the model uses. */
module Wrappers {

  datatype Option<+T> = None | Some(value: T)

  /** A computation that either produced a value or raised a Python exception. */
  datatype Result<+T, +E> = Ok(value: T) | Err(error: E)
}
