/** Optional values and error-carrying results, used across the model. */
module Wrappers {

  /** A value that may be absent (JavaScript's `null` / `undefined`). */
  datatype Option<+T> = None | Some(value: T)

  /** The result of an operation that may fail in place of throwing. */
  datatype Result<+T, +E> = Ok(value: T) | Err(error: E)
}
