/** Optional values and error results used across the model. */
module Wrappers {

  /** A value that may be absent (PHP's nullable `?T`). */
  datatype Option<+T> = None | Some(value: T)

  /** The outcome of an operation that can reject its input. */
  datatype Result<+T, +E> = Ok(value: T) | Err(error: E)
}
