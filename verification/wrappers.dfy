/** Optional values and results with an error, as used throughout the model. */
module Wrappers {

  datatype Option<+T> = None | Some(value: T)

  /** A value, or the exception that was raised instead of returning it. */
  datatype Result<+T, +E> = Ok(value: T) | Err(error: E)
}
