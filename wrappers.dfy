/** Failure-carrying return types used by the key model. */
module Wrappers {

  /** A value that may be missing: a template alias that names no type. */
  datatype Option<+T> = None | Some(value: T)

  /** A value, or the reason it could not be formed. */
  datatype Result<+T, +E> = Ok(value: T) | Err(error: E)
}
