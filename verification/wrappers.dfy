/** Option and Result, the two failure-carrying types the model uses in place of
    JavaScript's `null`/`undefined` and rejected promises. */
module Wrappers {

  datatype Option<+T> = None | Some(value: T)

  datatype Result<+T, +E> = Ok(value: T) | Err(error: E)
}
