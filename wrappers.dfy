/** Optional values and success-or-failure results, as the store's operations return them. */
module Wrappers {

  /** A value that may be absent (JavaScript's `undefined`/`null`). */
  datatype Option<+T> = None | Some(value: T)

  /** The outcome of a store request: it resolves with a value or rejects with an error. */
  datatype Result<+T, +E> = Ok(value: T) | Err(error: E)
}
