/** Option and Result, used for Python's "missing value" and for the exceptions that abort the run. */
module Wrappers {

  datatype Option<+T> = None | Some(value: T)

  datatype Result<+T, +E> = Success(value: T) | Failure(error: E)
}
