/** Small shared vocabulary: bytes, optional values and integer bounds. */
module Prelude {

  type byte = x: int | 0 <= x < 256

  datatype Option<+T> = None | Some(value: T)

  function Min(a: int, b: int): int {
    if a <= b then a else b
  }

  function Max(a: int, b: int): int {
    if a <= b then b else a
  }

  /** The largest value of a Go `int64`. */
  const MAX_INT64: int := 0x7fff_ffff_ffff_ffff
}
