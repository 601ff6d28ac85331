/** Optional values and results with an error, used across the model. */
module Wrappers {

  /** A value that may be absent, as a JSON field that may be missing or null. */
  datatype Option<+T> = None | Some(value: T)

  /** The outcome of an operation that either returns a value or throws. */
  datatype Result<+T, +E> = Ok(value: T) | Err(error: E)
}
