/** Error and optional values shared by every module of the model. */
module Wrappers {
  /** A value, or the message of the exception the source raises instead. */
  datatype Result<T> = Ok(value: T) | Err(msg: string)
  {
    predicate IsFailure() { Err? }
  }

  datatype Option<T> = None | Some(value: T)
}
