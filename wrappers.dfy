/** Failure-compatible result types used in place of the exceptions the services raise. */
module Wrappers {

  datatype Option<+T> = None | Some(value: T)

  /** A value or the error that the source raises instead of returning it. */
  datatype Result<+R, +E> = Success(value: R) | Failure(error: E)

  /** A check that either passes or raises an error (a method returning None in the source). */
  datatype Outcome<+E> = Pass | Fail(error: E)
}
