/** Java `int` arithmetic: two's complement with 32-bit wrap-around. */
module JavaInt {
  const TWO32: int := 0x1_0000_0000
  const MIN_INT: int := -0x8000_0000
  const MAX_INT: int := 0x7FFF_FFFF

  predicate IsInt(x: int) { MIN_INT <= x <= MAX_INT }

  /** The Java `int` congruent to `x` modulo 2^32. */
  function Wrap(x: int): (r: int)
    ensures IsInt(r)
    ensures (x - r) % TWO32 == 0
    ensures IsInt(x) ==> r == x
  {
    var m := x % TWO32;
    if m <= MAX_INT then m else m - TWO32
  }

  /** Java `a + b` on ints. */
  function Add(a: int, b: int): int { Wrap(a + b) }

  /** Java `a - b` on ints. */
  function Sub(a: int, b: int): int { Wrap(a - b) }

  /** Java `a * b` on ints. */
  function Mul(a: int, b: int): int { Wrap(a * b) }

  /** The unsigned 32-bit view of a Java int, as used for bit operations. */
  function ToBits(x: int): bv32
  {
    (x % TWO32) as bv32
  }

  /** The Java int whose bits are `b`. */
  function FromBits(b: bv32): (r: int)
    ensures IsInt(r)
    ensures ToBits(r) == b
  {
    var n := b as int;
    WrapOfUnsigned(n);
    Wrap(n)
  }

  lemma WrapOfUnsigned(n: int)
    requires 0 <= n < TWO32
    ensures Wrap(n) % TWO32 == n
  {
    assert n % TWO32 == n;
    if n > MAX_INT {
      assert Wrap(n) == n - TWO32;
      assert (n - TWO32) % TWO32 == n;
    }
  }
}
