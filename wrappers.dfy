/** Option and result types used throughout the model. */
module Wrappers {

  /** An optional value: the result of a parse that may be rejected. */
  datatype Option<+T> = None | Some(value: T)

  /** Either a value or the error that stopped its computation. */
  datatype Result<+T, +E> = Ok(value: T) | Err(error: E)
}
