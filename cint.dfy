/**
 * The C integer types the log store and the buffer work with, and the
 * conversions between them that the C++ code performs implicitly.
 */
module CInt {

  const INT32_MIN: int := -0x8000_0000
  const INT32_MAX: int := 0x7FFF_FFFF
  const TWO_32: int := 0x1_0000_0000
  const SIZE_T_LIMIT: int := 0x1_0000_0000_0000_0000

  /** A C `int` (32 bits, two's complement). */
  type Int32 = x: int | -0x8000_0000 <= x < 0x8000_0000

  /** The characters of a twine: the class keeps its length in an `int` (`int m_data_size`), so a twine never holds more than INT32_MAX. */
  type Twine = s: string | |s| <= 0x7FFF_FFFF

  /** A C `size_t` (64 bits, unsigned). */
  type SizeT = x: int | 0 <= x < 0x1_0000_0000_0000_0000

  /** The conversion `(int)x` of a wider integer: keep the low 32 bits. */
  function ToInt32(x: int): (r: Int32)
    ensures INT32_MIN <= x <= INT32_MAX ==> r == x
    ensures (x - r) % TWO_32 == 0
  {
    var m := x % TWO_32;
    if m <= INT32_MAX then m else m - TWO_32
  }

  /** Unsigned `size_t` arithmetic: every result is reduced modulo 2^64. */
  function SizeWrap(x: int): (r: SizeT)
    ensures 0 <= x < SIZE_T_LIMIT ==> r == x
    ensures (x - r) % SIZE_T_LIMIT == 0
  {
    x % SIZE_T_LIMIT
  }
}
