/** Optional values and success/failure results, as the service calls report them. */
module Wrappers {

  /** A value that may be absent (JavaScript's `undefined`/`null`). */
  datatype Option<+T> = None | Some(value: T)

  /** A settled promise: fulfilled with a value or rejected with an error message. */
  datatype Result<+T, +E> = Ok(value: T) | Err(error: E)
}
