/** Kotlin `Int` arithmetic: two's-complement 32-bit values that wrap around. */
module Int32 {

  const Modulus: int := 0x1_0000_0000
  const Half: int := 0x8000_0000

  predicate IsInt32(x: int) {
    -Half <= x < Half
  }

  /** The `Int` that a mathematical integer wraps to. */
  function Wrap(x: int): (r: int)
    ensures IsInt32(r)
    ensures (r - x) % Modulus == 0
    ensures IsInt32(x) ==> r == x
  {
    (x + Half) % Modulus - Half
  }

  /** Integers equal modulo 2^32 wrap to the same `Int`. */
  lemma WrapCongruent(x: int, y: int, k: int)
    requires x == y + k * Modulus
    ensures Wrap(x) == Wrap(y)
  {
  }

  /** `Wrap` can be applied to any sub-term of a sum without changing the result. */
  lemma WrapInner(x: int, m: int, c: int)
    ensures Wrap(Wrap(x) * m + c) == Wrap(x * m + c)
  {
    var k := (Wrap(x) - x) / Modulus;
    assert Wrap(x) == x + k * Modulus;
    assert Wrap(x) * m + c == x * m + c + (k * m) * Modulus;
    WrapCongruent(Wrap(x) * m + c, x * m + c, k * m);
  }

  /** Kotlin `a shl 5`. */
  function Shl5(a: int): int {
    Wrap(a * 32)
  }

  /** Kotlin `Int` subtraction. */
  function Minus(a: int, b: int): int {
    Wrap(a - b)
  }

  /** Kotlin `Int` addition. */
  function Plus(a: int, b: int): int {
    Wrap(a + b)
  }
}
