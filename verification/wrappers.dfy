/** Optional values and results with an error, for the fallible steps of the model. */
module Wrappers {

  /** A present value or nothing. On numbers, None stands for JavaScript's NaN. */
  datatype Option<+T> = None | Some(value: T)

  /** The value an operation produced, or the error it raised. */
  datatype Result<+T, +E> = Ok(value: T) | Err(error: E)
}
