/** Optional values and handler results, shared by the other modules. */
module Wrappers {

  /** Python's `Optional[T]`: a value or `None`. */
  datatype Option<+T> = None | Some(value: T)

  /** The outcome of a request handler: a value or an HTTP error. */
  datatype Result<+T, +E> = Ok(value: T) | Err(error: E)
}
