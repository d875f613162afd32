/** Option and Result, the failure-carrying values the models return where the
    Python code returns None or raises. */
module Wrappers {

  datatype Option<+T> = None | Some(value: T)

  /** `Err` carries the exception kind (or message) the Python code raises. */
  datatype Result<+T, +E> = Ok(value: T) | Err(error: E)
}
