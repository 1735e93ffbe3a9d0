/** Option and Result, the value-or-error shapes the rest of the model returns. */
module Wrappers {

  datatype Option<+T> = None | Some(value: T)

  /** A Go `(value, error)` pair: either the value or the error. */
  datatype Result<+T, +E> = Ok(value: T) | Err(error: E)
}
