/** Option and Result values and byte strings, shared by the models of this project. */
module Wrappers {
  datatype Option<+T> = None | Some(value: T)

  newtype byte = b: int | 0 <= b < 256
  type Bytes = seq<byte>

  datatype Result<+T, +E> = Ok(value: T) | Err(error: E)
}
