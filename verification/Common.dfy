/** Shared value types: optional values and Go's fixed-width signed integers. */
module Common {

  datatype Option<+T> = None | Some(value: T)

  const TWO31: int := 0x8000_0000
  const TWO32: int := 0x1_0000_0000
  const TWO63: int := 0x8000_0000_0000_0000
  const TWO64: int := 0x1_0000_0000_0000_0000

  type i32 = x: int | -0x8000_0000 <= x < 0x8000_0000
  type i64 = x: int | -0x8000_0000_0000_0000 <= x < 0x8000_0000_0000_0000
  newtype byte = x: int | 0 <= x < 256

  /** Go's int32 addition. */
  function Add32(a: i32, b: i32): i32 {
    if a + b >= TWO31 then a + b - TWO32 else if a + b < -TWO31 then a + b + TWO32 else a + b
  }

  /** Go's int32 subtraction. */
  function Sub32(a: i32, b: i32): i32 {
    if a - b >= TWO31 then a - b - TWO32 else if a - b < -TWO31 then a - b + TWO32 else a - b
  }

  /** Go's int64 addition. */
  function Add64(a: i64, b: i64): i64 {
    if a + b >= TWO63 then a + b - TWO64 else if a + b < -TWO63 then a + b + TWO64 else a + b
  }

  /** The three operations are arithmetic modulo the width, and exact when the result fits. */
  lemma WrapIsModular(a: i32, b: i32, c: i64, d: i64)
    ensures (Add32(a, b) - (a + b)) % TWO32 == 0 && (Sub32(a, b) - (a - b)) % TWO32 == 0
    ensures (Add64(c, d) - (c + d)) % TWO64 == 0
    ensures -TWO31 <= a + b < TWO31 ==> Add32(a, b) == a + b
  {
  }

  /** Moving by a delta and then by its negation is the identity, wrap-around included. */
  lemma AddUndone(a: i32, d: i32)
    ensures Add32(Add32(a, d), Sub32(0, d)) == a
  {
  }
}
