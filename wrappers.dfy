/** Option and Result types shared by the modules of this model. */
module Wrappers {

  datatype Option<+T> = None | Some(value: T)

  /** The value of a Go call that returns `(T, error)`: either a value or an error. */
  datatype Result<+T, +E> = Ok(value: T) | Err(error: E)
}
