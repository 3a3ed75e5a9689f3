/** Optional values and failure-carrying results shared by the other modules. */
module Wrappers {

  /** A value that may be missing (a TypeScript `undefined` or `null`). */
  datatype Option<+T> = None | Some(value: T)

  /** The outcome of an operation that may throw: `Failure` stands for the thrown error. */
  datatype Result<+R, +E> = Success(value: R) | Failure(error: E)
}
