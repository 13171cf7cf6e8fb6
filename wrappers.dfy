/** Failure-carrying values used in place of `null` and of thrown errors. */
module Wrappers {

  /** A value that may be absent (a TypeScript `T | null` or an optional parameter). */
  datatype Option<+T> = None | Some(value: T)

  /** The outcome of an operation that either yields a value or throws. */
  datatype Result<+T, +E> = Success(value: T) | Failure(error: E)

  /** The outcome of an operation returning `void` that may throw. */
  datatype Outcome<+E> = Pass | Fail(error: E)
}
