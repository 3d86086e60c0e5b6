/** Go's fixed-width integers, with their wrap-around written out. */
module Integers {
  const TWO_63 := 0x8000_0000_0000_0000
  const TWO_64 := 0x1_0000_0000_0000_0000

  type Uint64 = x: int | 0 <= x < TWO_64
  type Int64 = x: int | -TWO_63 <= x < TWO_63

  /** Addition of uint64 values. */
  function Add(a: Uint64, b: Uint64): Uint64 {
    if a + b < TWO_64 then a + b else a + b - TWO_64
  }

  /** The conversions between the two types keep the bits. */
  function AsUint64(x: Int64): Uint64 {
    if x < 0 then x + TWO_64 else x
  }

  function AsInt64(x: Uint64): Int64 {
    if x >= TWO_63 then x - TWO_64 else x
  }
}
