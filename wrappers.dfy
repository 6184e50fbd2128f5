/** Failure-carrying values used throughout the model. */
module Wrappers {

  /** A value that may be absent (JavaScript's `undefined`, or a library call that failed). */
  datatype Option<+T> = None | Some(value: T)

  /** The outcome of an operation that either returns a value or throws an error. */
  datatype Result<+T, +E> = Ok(value: T) | Err(error: E)
}
