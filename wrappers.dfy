/** The option and result types used across the model. */
module Wrappers {

  datatype Option<T> = None | Some(value: T)

  /** Either a value or the message the GUI logs instead. */
  datatype Result<T, E> = Ok(value: T) | Err(error: E)
}
