/** Result types shared by the model: Option stands for a
    Java reference that may be null, Result and Outcome for a call that may
    throw instead of returning. */
module Wrappers {

  /** A value that may be absent (Java `null`). */
  datatype Option<+T> = None | Some(value: T)

  /** A returned value, or the exception thrown instead. */
  datatype Result<+R, +E> = Success(value: R) | Failure(error: E)

  /** Normal completion of a `void` method, or the exception thrown instead. */
  datatype Outcome<+E> = Pass | Fail(error: E)
}
