/** Option and Result, shared by the other modules. */
module Wrappers {

  /** An optional value: `None` when nothing was found. */
  datatype Option<+T> = None | Some(value: T)

  /** The outcome of an operation that may fail with an error of type `E`. */
  datatype Result<+R, +E> = Success(value: R) | Failure(error: E)
}
