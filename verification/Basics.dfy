/** Types shared by the models. */
module Basics {

  datatype Option<+T> = None | Some(value: T)

  datatype Result<+T, +E> = Ok(value: T) | Err(error: E)

  /** One unsigned octet, as held by an `ArrayBuffer` or by a file. */
  newtype byte = x: int | 0 <= x < 0x100

  function Max(a: int, b: int): int {
    if a < b then b else a
  }

  function Min(a: int, b: int): int {
    if a < b then a else b
  }
}
