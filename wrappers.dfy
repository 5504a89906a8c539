/** Option and Result, the failure-carrying wrappers used throughout the model. */
module Wrappers {

  datatype Option<+T> = None | Some(value: T)

  /** A value or the exception raised instead of it (the runtime's `PyResult`). */
  datatype Result<+R, +E> = Success(value: R) | Failure(error: E)
}
