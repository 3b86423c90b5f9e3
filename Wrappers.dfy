/** Option and Result values, used for Python's `None` and for raised exceptions. */
module Wrappers {

  datatype Option<+T> = None | Some(value: T)

  /** `Err` stands for an exception the Python code raises or lets escape. */
  datatype Result<+T, +E> = Ok(value: T) | Err(error: E)
}
