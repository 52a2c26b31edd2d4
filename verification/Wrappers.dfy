/** Option and Result, shared by every module of the model. */
module Wrappers {

  /** A nullable column, a nil pointer, or an absent value. */
  datatype Option<+T> = None | Some(value: T)

  /** A returned value or the error that replaced it. */
  datatype Result<+T, +E> = Ok(value: T) | Err(error: E)
}
