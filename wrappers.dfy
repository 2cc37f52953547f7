/** Option and Result, the outcome types used by every module of the model. */
module Wrappers {

  datatype Option<+T> = None | Some(value: T)

  /** An operation's value, or the exception it throws (as a tag of the caller's choosing). */
  datatype Result<+T, +E> = Ok(value: T) | Err(error: E)
}
