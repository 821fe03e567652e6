/** Option, Result and Outcome: the error paths of the API as values. */
module Results {

  /** A value that may be absent (a Java `Integer` that may be null). */
  datatype Option<+T> = None | Some(value: T)

  /** The value a call returns, or the exception it throws. */
  datatype Result<+T, +E> = Success(value: T) | Failure(error: E)

  /** Completion of a call that returns nothing, or the exception it throws. */
  datatype Outcome<+E> = Pass | Fail(error: E)
}
