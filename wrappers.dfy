/** Failure-carrying result types shared by the whole model. */
module Wrappers {

  /** A value that may be absent: Python's `None`, or a missing dictionary key. */
  datatype Option<+T> = None | Some(value: T)

  /** The outcome of an operation that raises an exception on some inputs. */
  datatype Result<+T, +E> = Success(value: T) | Failure(error: E)
}
