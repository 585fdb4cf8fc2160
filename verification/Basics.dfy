/** Small definitions shared by all modules. */
module Basics {

  datatype Option<+T> = None | Some(value: T)

  type Byte = x: int | 0 <= x < 256

  function Max(a: int, b: int): int { if a > b then a else b }

  function Min(a: int, b: int): int { if a < b then a else b }

  /** A condition as a number. */
  function B2N(b: bool): nat {
    if b then 1 else 0
  }
}
