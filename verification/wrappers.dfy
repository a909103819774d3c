/** Option and Result: the shapes every request handler of the model returns. */
module Wrappers {

  /** A value that may be absent: a missing request field, an unset timestamp. */
  datatype Option<+T> = None | Some(value: T)

  /** The reply of a request: the document it produced, or the error it answered with. */
  datatype Result<+T, +E> = Ok(value: T) | Err(error: E)
}
