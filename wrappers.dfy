/** Option and Result: a missing value and an error path, as values. */
module Wrappers {

  /** Python's `None` or a value. */
  datatype Option<+T> = None | Some(value: T)

  /** A value, or the error that ends the call (an exception in the source). */
  datatype Result<+T, +E> = Ok(value: T) | Err(error: E)
}
