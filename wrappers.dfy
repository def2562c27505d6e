/** Option and Result values shared by the modules of this model. */
module Wrappers {

  /** A value that may be absent (a null pointer, an empty optional, a missing key). */
  datatype Option<+T> = None | Some(value: T)

  /** The outcome of an operation that either produces a value or raises an error. */
  datatype Result<+T, +E> = Ok(value: T) | Err(error: E)
}
