/** Option and Result, the two failure-carrying shapes the model uses. */
module Wrappers {

  /** A value that may be absent, such as an `undefined` query parameter. */
  datatype Option<+T> = None | Some(value: T)

  /** The settled outcome of a promise: resolved with a value or rejected with an error. */
  datatype Result<+R, +E> = Success(value: R) | Failure(error: E)
}
