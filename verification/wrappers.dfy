/** Option and Result datatypes shared by the model. */
module Wrappers {

  /** A value that may be absent; `None` plays the part of Python's `None`. */
  datatype Option<+T> = None | Some(value: T)

  /** The outcome of an operation that may raise instead of returning. */
  datatype Result<+R, +E> = Success(value: R) | Failure(error: E)
}
