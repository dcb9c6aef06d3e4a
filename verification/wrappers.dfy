/** Option and Result, the two shapes every lookup and every service call
    in this model returns. */
module Wrappers {

  datatype Option<+T> = None | Some(value: T)

  /** The outcome of a service call: a value, or the error the Go code returns. */
  datatype Result<+T, +E> = Ok(value: T) | Err(error: E)
}
