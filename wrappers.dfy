/** Option and Result, the two failure-carrying shapes used throughout the model. */
module Wrappers {

  datatype Option<+T> = None | Some(value: T)

  /** Ok carries a value; Err carries the exception the Java code would throw. */
  datatype Result<+T, +E> = Ok(value: T) | Err(error: E)
}
