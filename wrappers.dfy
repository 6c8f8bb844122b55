/** The `Option` and `Result` datatypes shared by the other modules. */
module Wrappers {

  /** A value that may be missing: the model of a TypeScript `T | null` or `T | undefined`. */
  datatype Option<+T> = None | Some(value: T)

  /** The outcome of an operation that may throw: `Failure` carries the error message. */
  datatype Result<+R, +E> = Success(value: R) | Failure(error: E)
}
