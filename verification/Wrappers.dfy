/** Outcomes and values shared by the models. */
module Wrappers {
  datatype Option<+T> = None | Some(value: T)

  type Byte = b: nat | b < 256

  datatype Result<+T, +E> = Ok(value: T) | Err(error: E)
}
