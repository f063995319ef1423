/** Option and Result, the two failure-carrying datatypes the model uses. */
module Wrappers {

  /** A value that may be absent: TypeScript's `T | null` or `T | undefined`. */
  datatype Option<+T> = None | Some(value: T)

  /** The outcome of an operation that may throw: `Failure` carries the thrown error's message. */
  datatype Result<+T, +E> = Success(value: T) | Failure(error: E)
}
