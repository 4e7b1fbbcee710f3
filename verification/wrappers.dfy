/** Failure-carrying datatypes shared by the rest of the model. */
module Wrappers {

  /** A value that may be absent (Python's `None`, or a missing key). */
  datatype Option<+T> = None | Some(value: T)

  /** Either a value or the exception that escaped instead of it. */
  datatype Result<+R, +E> = Success(value: R) | Failure(error: E)
}
