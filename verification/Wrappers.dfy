/** The two result types shared by every module. */
module Wrappers {

  datatype Option<+T> = None | Some(value: T)

  /** A Python call: the value it returns, or the exception it raises. */
  datatype Result<+T, +E> = Ok(value: T) | Err(error: E)
}
