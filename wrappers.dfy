/** Optional values and call outcomes, shared by the other modules. */
module Wrappers {

  /** A value that may be absent: JavaScript's `null` / `undefined`. */
  datatype Option<+T> = None | Some(value: T)

  /** The outcome of a call that may throw: a value, or the thrown error's message. */
  datatype Result<+R, +E> = Success(value: R) | Failure(error: E)
}
