/** A value or the error that stopped its computation. */
module Wrappers {
  datatype Result<+T, +E> = Success(value: T) | Failure(error: E)
}
