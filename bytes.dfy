/**
 * Fixed-width integer types and the C integer operations the firmware relies on.
 * Dafny's `int` is unbounded and its `/` and `%` are Euclidean, so every C
 * width, cast and truncating division the model needs is written out here.
 */
module Bytes {
  type u8 = x: int | 0 <= x < 0x100
  type u16 = x: int | 0 <= x < 0x1_0000
  type u32 = x: int | 0 <= x < 0x1_0000_0000
  type i16 = x: int | -0x8000 <= x < 0x8000
  type i32 = x: int | -0x8000_0000 <= x < 0x8000_0000

  datatype Option<T> = None | Some(value: T)

  /** C's `/` on signed operands with a positive divisor: the quotient is truncated toward zero. */
  function CDiv(a: int, b: int): (q: int)
    requires b > 0
    ensures a >= 0 ==> 0 <= a - q * b < b
    ensures a < 0 ==> -b < a - q * b <= 0
  {
    if a >= 0 then a / b else -((-a) / b)
  }

  /** C's `%` with a positive divisor: the remainder takes the sign of the dividend. */
  function CMod(a: int, b: int): (r: int)
    requires b > 0
    ensures a == CDiv(a, b) * b + r
    ensures -b < r < b
    ensures a >= 0 ==> r >= 0
    ensures a <= 0 ==> r <= 0
  {
    a - CDiv(a, b) * b
  }

  function Abs(x: int): (r: nat)
    ensures r == x || r == -x
  {
    if x < 0 then -x else x
  }

  /** A two's-complement reinterpretation of 16 raw bits, as `(int16_t)` does on the target. */
  function AsInt16(x: u16): (r: i16)
    ensures (r - x) % 0x1_0000 == 0
    ensures r < 0 <==> x >= 0x8000
  {
    if x >= 0x8000 then x - 0x1_0000 else x
  }

  /** The raw 16 bits that store a signed value, the inverse of AsInt16. */
  function Int16Bits(v: i16): (x: u16)
    ensures AsInt16(x) == v
  {
    if v < 0 then v + 0x1_0000 else v
  }

  /** A little-endian `uint16_t` read from two consecutive bytes (the targets are Cortex-M). */
  function LeU16(lo: u8, hi: u8): (r: u16)
    ensures r % 0x100 == lo && r / 0x100 == hi
  {
    lo + 0x100 * hi
  }

  /** The two bytes a little-endian `uint16_t` occupies in memory. */
  function U16Bytes(v: u16): (b: seq<u8>)
    ensures |b| == 2 && LeU16(b[0], b[1]) == v
  {
    [v % 0x100, v / 0x100]
  }
}
