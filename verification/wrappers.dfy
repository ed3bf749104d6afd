/** Failure-carrying values used in place of null returns and thrown errors. */
module Wrappers {

  /** A value that may be absent: `null`/`undefined` in the modelled code. */
  datatype Option<+T> = None | Some(value: T)

  /** The outcome of an operation that either returns a value or throws an error. */
  datatype Result<+R, +E> = Success(value: R) | Failure(error: E)
}
