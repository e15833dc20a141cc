/** The failure-carrying datatypes used across the model. */
module Wrappers {

  /** A value that may be missing: a pandas cell that is NaN is `None`. */
  datatype Option<+T> = None | Some(value: T)

  /** The outcome of a step that can raise. */
  datatype Result<+R, +E> = Success(value: R) | Failure(error: E)
}
