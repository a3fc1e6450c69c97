/** Option and Result, the two failure-carrying shapes the model uses for
    Python's `None` and for the HTTP errors the handlers raise. */
module Wrappers {

  /** A value that may be absent, Python's `Optional[T]`. */
  datatype Option<+T> = None | Some(value: T)

  /** Either a computed value or the error that stopped the computation. */
  datatype Result<+R, +E> = Success(value: R) | Failure(error: E)
}
