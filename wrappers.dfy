/** Optional values and results with an error, used for the Python code's
    `None` returns and its aborting exceptions. */
module Wrappers {

  datatype Option<+T> = None | Some(value: T)

  datatype Result<+T, +E> = Ok(value: T) | Err(error: E)
}
