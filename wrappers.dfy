/** Option and Result values shared by the modules of the model. */
module Wrappers {

  /** A value that may be absent: JavaScript's `null` / `undefined`. */
  datatype Option<+T> = None | Some(value: T)

  /** A value or the error that was thrown in its place. */
  datatype Result<+T, +E> = Ok(value: T) | Err(error: E)
}
