/** Option and Result, the two failure-carrying shapes the pipeline needs. */
module Wrappers {

  /** A cell or a parse that may be absent (pandas' NaN / NaT). */
  datatype Option<+T> = None | Some(value: T)

  /** A computation that may raise instead of returning a value. */
  datatype Result<+R, +E> = Success(value: R) | Failure(error: E)
}
