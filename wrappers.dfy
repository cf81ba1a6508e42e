/** Small failure-carrying datatypes shared by the codec and the session. */
module Wrappers {

  /** A value that may be absent; `None` plays the part of Python's `None`. */
  datatype Option<+T> = None | Some(value: T)

  /** Either a value or the error code an operation raised. */
  datatype Result<+R, +E> = Success(value: R) | Failure(error: E)
}
