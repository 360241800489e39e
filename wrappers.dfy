/** Optional values and error-carrying results, used for the source's `None` returns and raised errors. */
module Wrappers {
  datatype Option<T> = None | Some(value: T)

  datatype Result<T, E> = Ok(value: T) | Err(error: E)
}
