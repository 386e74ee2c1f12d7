/** Optional values and results with an error, as the form logic returns them. */
module Wrappers {
  /** A value that may be absent (`null` in the component). */
  datatype Option<+T> = None | Some(value: T)

  /** The outcome of an operation that either produces a value or fails with an error. */
  datatype Result<+T, +E> = Ok(value: T) | Err(error: E)
}
