/** Option and Result, standing in for Python's None and raised exceptions. */
module Wrappers {

  /** A value that may be absent. */
  datatype Option<+T> = None | Some(value: T)

  /** Either a value or the error that the Python code would have raised. */
  datatype Result<+R, +E> = Success(value: R) | Failure(error: E)
}
