/** Optional and fallible values shared by the client store and the relay. */
module Wrappers {

  /** A value that may be absent (JavaScript's `null` / `undefined`). */
  datatype Option<+T> = None | Some(value: T)

  /** The outcome of an operation that can throw: a value or an error message. */
  datatype Result<+R, +E> = Success(value: R) | Failure(error: E)
}
