/** Optional values and the outcome of an operation that may throw. */
module Wrappers {

  datatype Option<+T> = None | Some(value: T)

  /** The value an operation returns, or the message of the error it throws. */
  datatype Result<+T> = Ok(value: T) | Err(message: string)
}
