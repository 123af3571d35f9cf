/** Failure-compatible wrappers used for the error paths of the model. */
module Wrappers {

  /** A value that may be missing (a Python indexing that would raise). */
  datatype Option<+T> = None | Some(value: T)

  /** Either a computed value or the error that stopped the computation. */
  datatype Result<+R, +E> = Success(value: R) | Failure(error: E)
}
