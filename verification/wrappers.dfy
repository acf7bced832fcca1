/** Plain option and result datatypes used throughout the model. */
module Wrappers {

  /** A value that may be absent, as Go's `(value, ok)` and `(value, err)` pairs are. */
  datatype Option<+T> = None | Some(value: T)

  /** Either a computed value or the reason the computation stopped. */
  datatype Result<+R, +E> = Success(value: R) | Failure(error: E)
}
