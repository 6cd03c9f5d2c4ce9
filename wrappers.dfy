/** Option and Result, the two failure-carrying types the model needs. */
module Wrappers {

  datatype Option<+T> = None | Some(value: T)

  /** A value or an error message, as `anyhow::Result` in the modelled program. */
  datatype Result<+T, +E> = Ok(value: T) | Err(error: E)
}
