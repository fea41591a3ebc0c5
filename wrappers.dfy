/** Option and Result values shared by the modules of the model. */
module Wrappers {

  datatype Option<+T> = None | Some(value: T)

  /** `Err` carries what the source raises: an exception's message or kind. */
  datatype Result<+T, +E> = Ok(value: T) | Err(error: E)
}
