/** Failure-compatible result types shared by every module of the model. */
module Wrappers {

  /** A value that may be absent: Python's `None` versus a present value. */
  datatype Option<+T> = None | Some(value: T)

  /** The outcome of an operation that the source wraps in `try`/`except`:
      either a value or the error that was caught. */
  datatype Result<+T, +E> = Success(value: T) | Failure(error: E)
}
