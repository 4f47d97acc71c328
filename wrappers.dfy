/** Missing values and failing operations. */
module Wrappers {

  /** A cell that may be missing (pandas NaN / NaT). */
  datatype Option<+T> = None | Some(value: T)

  /** The outcome of an operation that may raise. */
  datatype Result<+R, +E> = Success(value: R) | Failure(error: E)
}
