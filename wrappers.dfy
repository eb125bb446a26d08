/** Failure-carrying results shared by the three components: Java exceptions
    become explicit error values. */
module Wrappers {

  /** A value that may be absent (a Java reference that may be null). */
  datatype Option<+T> = None | Some(value: T)

  /** Either a constructed value or the exception a Java constructor throws. */
  datatype Result<+T, +E> = Success(value: T) | Failure(error: E)

  /** The outcome of a `void` Java method that may throw. */
  datatype Outcome<+E> = Pass | Fail(error: E)
}
