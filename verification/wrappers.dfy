/** Failure-carrying return types used throughout the model: `Option` for the
    queries that return "no result" on too little data, and `Result` for the
    parameter validator. */
module Wrappers {

  datatype Option<+T> = None | Some(value: T)

  datatype Result<+R, +E> = Ok(value: R) | Err(error: E)
}
