/** Optional values and error-carrying results used across the model. */
module Wrappers {

  /** A value that may be absent: an XML child that `find` did not locate, or Python's `None`. */
  datatype Option<+T> = None | Some(value: T)

  /** The outcome of a step that can raise in the source. */
  datatype Result<+R, +E> = Success(value: R) | Failure(error: E)
}
