/** Optional and fallible values shared by the whole model. */
module Wrappers {

  /** A value that may be absent; `None` stands for JavaScript's `undefined`. */
  datatype Option<+T> = None | Some(value: T)

  /** The outcome of an operation that may throw: a value or the error it raised. */
  datatype Result<+T, +E> = Ok(value: T) | Err(error: E)
}
