/** PHP's `null`-or-value and value-or-exception returns, as datatypes. */
module Wrappers {

  /** A value that PHP may leave `null`. */
  datatype Option<+T> = None | Some(value: T)

  /** A call that either returns a value or throws. */
  datatype Result<+R, +E> = Success(value: R) | Failure(error: E)
}
