/** Option and Result, the shapes every service operation returns. */
module Wrappers {

  /** A value that may be missing: a SQL NULL, an absent relation, a failed recovery. */
  datatype Option<+T> = None | Some(value: T)

  /** Either the value an operation returns or the exception it throws. */
  datatype Result<+T, +E> = Success(value: T) | Failure(error: E)
}
