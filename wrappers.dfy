/** Option and Result: the absent dictionary key and the raised exception. */
module Wrappers {

  datatype Option<+T> = None | Some(value: T)

  /** Ok carries a returned value, Err the exception the Python code raises instead. */
  datatype Result<+T, +E> = Ok(value: T) | Err(error: E)
}
