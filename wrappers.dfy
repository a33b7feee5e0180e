/** Option and Result: how the model writes "no value" and "raised an exception". */
module Wrappers {

  datatype Option<+T> = None | Some(value: T)

  /** Ok carries the value a Python call returns; Err the exception it raises. */
  datatype Result<+T, +E> = Ok(value: T) | Err(error: E)
}
