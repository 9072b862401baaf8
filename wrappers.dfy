/** Optional values and success/failure results shared by the other modules. */
module Wrappers {

  /** A value that may be absent: TypeScript's `T | null` / `undefined`, Python's `None`. */
  datatype Option<+T> = None | Some(value: T)

  /** The outcome of an operation that may throw: a value or the error it raised. */
  datatype Result<+T, +E> = Success(value: T) | Failure(error: E)
}
