/** Optional and fallible values, shared by every module of the model. */
module Wrappers {

  /** A value that may be absent: Rust's `Option`, or a JavaScript `undefined`/`null` slot. */
  datatype Option<+T> = None | Some(value: T)

  /** The outcome of an operation that can fail: Rust's `Result`. */
  datatype Result<+T, +E> = Success(value: T) | Failure(error: E)
}
