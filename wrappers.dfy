/** Failure-carrying results used throughout the model: `Option` for lookups and
    truncated reads, `Result` for the operations that throw in the original. */
module Wrappers {

  datatype Option<+T> = None | Some(value: T)

  datatype Result<+T> = Ok(value: T) | Err(msg: string)
}
