/** Option and Result, the failure-carrying values used throughout the model. */
module Wrappers {

  datatype Option<+T> = None | Some(value: T)

  /** A computation that either produced a value or raised an exception whose `str(e)` is `msg`. */
  datatype Result<+T> = Ok(value: T) | Err(msg: string)
}
