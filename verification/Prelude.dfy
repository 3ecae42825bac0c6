/** Small definitions that several modules share. */
module Prelude {

  datatype Option<+T> = None | Some(value: T)

  type Byte = b: nat | b < 256

  function Max(a: int, b: int): int { if a >= b then a else b }
}
