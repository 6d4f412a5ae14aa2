/** Failure-carrying values used where the source returns null/undefined or throws. */
module Wrappers {

  /** A value that may be absent (`null` or `undefined` in the source). */
  datatype Option<+T> = None | Some(value: T)

  /** The outcome of an operation that may throw: `Failure` carries the error message. */
  datatype Result<+T> = Success(value: T) | Failure(error: string)
}
