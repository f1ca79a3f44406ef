// Failure-carrying datatypes shared by the other modules.
module Wrappers {

  /** A value that may be absent (JavaScript's NaN, a missing handle, ...). */
  datatype Option<+T> = None | Some(value: T)

  /** The outcome of an operation that may throw: the value, or the exception's message. */
  datatype Result<+T> = Ok(value: T) | Err(message: string)
}
