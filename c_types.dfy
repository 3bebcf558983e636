/**
 * C integer types as the wasm32 build sees them: `unsigned int`, `size_t`
 * and `unsigned long` are 32 bits wide, `long` is a signed 32-bit value.
 * Conversions to an unsigned type reduce modulo 2^32.
 */
module CTypes {
  type Byte = x: int | 0 <= x < 256

  const U32Mod := 0x1_0000_0000

  type U32 = x: int | 0 <= x < 0x1_0000_0000

  type I32 = x: int | -0x8000_0000 <= x < 0x8000_0000

  type I64 = x: int | -0x8000_0000_0000_0000 <= x < 0x8000_0000_0000_0000

  /** Conversion of an integer value to a 32-bit unsigned type. */
  function ToU32(x: int): (r: U32)
    ensures 0 <= x < U32Mod ==> r == x
    ensures -U32Mod <= x < 0 ==> r == x + U32Mod
    ensures U32Mod <= x < 2 * U32Mod ==> r == x - U32Mod
  {
    x % U32Mod
  }

  /** Conversion of a 32-bit unsigned value to a 32-bit signed type (two's complement). */
  function ToI32(x: U32): (r: I32)
    ensures x < 0x8000_0000 ==> r == x
    ensures x >= 0x8000_0000 ==> r == x - U32Mod
  {
    if x < 0x8000_0000 then x else x - U32Mod
  }

  function Min(a: int, b: int): (r: int)
    ensures r <= a && r <= b && (r == a || r == b)
  {
    if a <= b then a else b
  }
}
