/** Failure-compatible wrappers: Java's nullable references and thrown exceptions are modelled with these. */
module Wrappers {

  /** A possibly-null Java reference: `None` is `null`. */
  datatype Option<+T> = None | Some(value: T)

  /** A computation that either yields a value or throws. */
  datatype Result<+T, +E> = Success(value: T) | Failure(error: E)

  /** A computation that yields nothing, or throws. */
  datatype Outcome<+E> = Pass | Fail(error: E)
}
