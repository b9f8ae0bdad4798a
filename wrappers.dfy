/** Option, Result and Outcome: the model's stand-ins for Python's `None`
    and for the exceptions the event bus raises. */
module Wrappers {

  /** A value that may be absent (Python `None`). */
  datatype Option<+T> = None | Some(value: T)

  /** Either a value or the error that the source raises instead. */
  datatype Result<+R, +E> = Success(value: R) | Failure(error: E)

  /** Success without a value, or the error that the source raises. */
  datatype Outcome<+E> = Pass | Fail(error: E)
}
