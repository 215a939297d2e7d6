// The result types shared by the modules.
module Wrappers {

  datatype Option<+T> = None | Some(value: T)

  // The value of a call that may raise, with the error it raises.
  datatype Result<+T, +E> = Ok(value: T) | Err(error: E)
}
