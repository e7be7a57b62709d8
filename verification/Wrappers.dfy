/** Failure-carrying datatypes shared by every component. */
module Wrappers {

  datatype Option<+T> = None | Some(value: T)

  /** A source exception becomes `Err`; every other return becomes `Ok`. */
  datatype Result<+T, +E> = Ok(value: T) | Err(error: E)
}
