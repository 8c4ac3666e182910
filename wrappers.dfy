/** Optional values and results that carry an error message. */
module Wrappers {

  datatype Option<+T> = None | Some(value: T)

  /** The outcome of a computation that may throw: a value, or the thrown error's message. */
  datatype Result<+T> = Ok(value: T) | Err(message: string)
}
