/** Failure-carrying values: Python's `None` results and the exceptions the
    source raises become `Option` and `Result` values. */
module Wrappers {

  datatype Option<+T> = None | Some(value: T)

  datatype Result<+T, +E> = Ok(value: T) | Err(error: E)
}
