/** Failure-carrying values shared by the other modules. */
module Wrappers {

  /** A value that may be absent (pandas' NaN, OpenCV's None). */
  datatype Option<+T> = None | Some(value: T)

  /** The outcome of a step that either yields a value or fails with an error. */
  datatype Result<+T, +E> = Success(value: T) | Failure(error: E)
}
