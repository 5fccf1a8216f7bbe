/** Option and Result, the two outcome shapes the model uses for Python's
    `None` and for an operation that raises. */
module Wrappers {

  datatype Option<+T> = None | Some(value: T)

  datatype Result<+T, +E> = Ok(value: T) | Err(error: E)
}
