/**
 * The fixed-width Java primitive types that appear in a tracked target.
 * Integers are bounded subset types; floating-point values are carried as
 * their IEEE 754 bit patterns because the tracker only copies them.
 */
module JavaTypes {

  /** Java `byte`. */
  type Int8 = x: int | -0x80 <= x < 0x80

  /** Java `int`. */
  type Int32 = x: int | -0x8000_0000 <= x < 0x8000_0000

  /** Java `long`. */
  type Int64 = x: int | -0x8000_0000_0000_0000 <= x < 0x8000_0000_0000_0000

  /** Java `float`, as its bit pattern; never computed on. */
  datatype Float32 = Float32(bits: bv32)

  /** Java `double`, as its bit pattern; never computed on. */
  datatype Float64 = Float64(bits: bv64)

  /** The value `-1f`, which the tracker stores as "unknown" course and speed. */
  const MinusOneFloat: Float32 := Float32(0xBF80_0000)

  /**
   * Java's narrowing cast `(byte) x`: the low eight bits of `x` read in two's
   * complement.  The result is the unique byte congruent to `x` modulo 256.
   */
  function ToByte(x: int): (b: Int8)
    ensures (x - b) % 256 == 0
    ensures -0x80 <= x < 0x80 ==> b == x
  {
    var low := x % 256;
    if low < 0x80 then low else low - 256
  }
}
