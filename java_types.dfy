/** Java's fixed-width integers, and the two's-complement wrap-around the
    source relies on when it negates a `long` or narrows a word. */
module JavaTypes {

  const LONG_MIN: int := -0x8000_0000_0000_0000
  const LONG_MAX: int := 0x7FFF_FFFF_FFFF_FFFF
  const TWO_POW_32: int := 0x1_0000_0000
  const TWO_POW_64: int := 0x1_0000_0000_0000_0000

  type int8 = x: int | -0x80 <= x < 0x80
  type int16 = x: int | -0x8000 <= x < 0x8000
  /** Java `char`: an unsigned 16-bit code unit. */
  type uint16 = x: int | 0 <= x < 0x1_0000
  type int32 = x: int | -0x8000_0000 <= x < 0x8000_0000
  /** Non-negative `int`, as returned by size accessors. */
  type nat31 = x: int | 0 <= x < 0x8000_0000
  /** Raw bits of a Java `float` (`Float.floatToRawIntBits`, read unsigned). */
  type uint32 = x: int | 0 <= x < 0x1_0000_0000
  type int64 = x: int | LONG_MIN <= x <= LONG_MAX

  /** Reduces any integer to the `long` with the same low 64 bits. */
  function WrapLong(x: int): (r: int64)
    ensures (r - x) % TWO_POW_64 == 0
    ensures LONG_MIN <= x <= LONG_MAX ==> r == x
  {
    (x - LONG_MIN) % TWO_POW_64 + LONG_MIN
  }

  /** Java's unary minus on a `long`. */
  function Negate(x: int64): (r: int64)
    ensures x != LONG_MIN ==> r == -x
    ensures x == LONG_MIN ==> r == LONG_MIN
  {
    WrapLong(-(x as int))
  }

  /** Java's `(byte)` cast of a `long`: keeps the low 8 bits, signed. */
  function NarrowByte(x: int): (r: int8)
    ensures -0x80 <= x < 0x80 ==> r == x
  {
    (x + 0x80) % 0x100 - 0x80
  }

  /** Java's `(short)` cast of a `long`. */
  function NarrowShort(x: int): (r: int16)
    ensures -0x8000 <= x < 0x8000 ==> r == x
  {
    (x + 0x8000) % 0x1_0000 - 0x8000
  }

  /** Java's `(char)` cast of a `long`. */
  function NarrowChar(x: int): (r: uint16)
    ensures 0 <= x < 0x1_0000 ==> r == x
  {
    x % 0x1_0000
  }

  /** Java's `(int)` cast of a `long`. */
  function NarrowInt(x: int): (r: int32)
    ensures -0x8000_0000 <= x < 0x8000_0000 ==> r == x
  {
    (x + 0x8000_0000) % TWO_POW_32 - 0x8000_0000
  }

  /** The low four bytes of a little-endian `long`, read unsigned. */
  function LowHalf(x: int64): (r: uint32)
    ensures (x - r) % TWO_POW_32 == 0
  {
    x % TWO_POW_32
  }

  /** The `long` whose low four bytes are `low` and high four bytes are `high`. */
  function JoinHalves(low: uint32, high: uint32): (r: int64)
    ensures LowHalf(r) == low
  {
    WrapLong(high * TWO_POW_32 + low)
  }
}
