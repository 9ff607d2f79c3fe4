/** Failure-compatible wrappers: `Option` for Java's nullable references,
    `Result` for a value or the exception that replaced it, and `Outcome`
    for a check that either passes or fails with an error.
 */
module Wrappers {

  /** A value that may be absent (Java `null`). */
  datatype Option<+T> = None | Some(value: T)

  /** A computed value, or the error the computation stopped with. */
  datatype Result<+R, +E> = Success(value: R) | Failure(error: E)

  /** A check that carries no value: it passes, or it fails with an error. */
  datatype Outcome<+E> = Pass | Fail(error: E)
}
