/** Option and Result, used for NumPy values that may be absent and for the
    exceptions the constructor raises. */
module Wrappers {
  datatype Option<+T> = None | Some(value: T)

  datatype Result<+T, +E> = Ok(value: T) | Err(error: E)
}
