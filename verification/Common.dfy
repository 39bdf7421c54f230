/** Vocabulary the components share. */
module Common {

  const TWO_64: int := 0x1_0000_0000_0000_0000

  type UInt64 = n: int | 0 <= n < TWO_64 witness 0

  datatype Option<+T> = None | Some(value: T)

  datatype Side = Bid | Ask

  function Min(a: int, b: int): int {
    if a < b then a else b
  }

  function Max(a: int, b: int): int {
    if a < b then b else a
  }

  function MinReal(a: real, b: real): real {
    if b < a then b else a
  }

  function MaxReal(a: real, b: real): real {
    if a < b then b else a
  }

  function Abs(x: real): real {
    if x < 0.0 then -x else x
  }
}
