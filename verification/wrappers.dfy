/** Failure-carrying datatypes shared by the other modules. */
module Wrappers {

  /** A value that may be absent (Python's `None`). */
  datatype Option<+T> = None | Some(value: T)

  /** Either a value or the exception that replaced it. */
  datatype Result<+R, +E> = Ok(value: R) | Err(error: E)
}
