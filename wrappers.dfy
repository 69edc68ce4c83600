/** Option and Result values shared by the scanner and the parser. */
module Wrappers {

  datatype Option<+T> = None | Some(value: T)

  /** `Ok` carries a value, `Err` the error that replaced it. */
  datatype Result<+T, +E> = Ok(value: T) | Err(error: E)
}
