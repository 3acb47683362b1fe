/** Optional values and results with an error message, shared by the
    market-status and request-handling modules. */
module Wrappers {

  datatype Option<T> = None | Some(value: T)

  /** A value or the error text the handler would send back. */
  datatype Result<T> = Ok(value: T) | Err(message: string)
}
