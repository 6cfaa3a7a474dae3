/** Java's 32-bit `int`: the value range and two's-complement wrap-around of `+` and `-`. */
module JavaInt {

  const MIN_INT: int := -0x8000_0000   // Integer.MIN_VALUE
  const MAX_INT: int := 0x7fff_ffff    // Integer.MAX_VALUE
  const MODULUS: int := 0x1_0000_0000  // 2^32

  /** The values a Java `int` can hold. */
  type Int32 = x: int | -0x8000_0000 <= x <= 0x7fff_ffff

  /** The Java `int` that the exact integer `x` becomes: Java keeps the low 32 bits of a sum. */
  function Wrap32(x: int): (r: Int32)
    ensures MIN_INT <= x <= MAX_INT ==> r == x
  {
    (x - MIN_INT) % MODULUS + MIN_INT
  }

  /** Wrapping only takes away a multiple of 2^32. */
  lemma WrapIsCongruent(x: int)
    ensures x - Wrap32(x) == MODULUS * ((x - Wrap32(x)) / MODULUS)
  {
  }

  /** Two Java `int`s that are congruent modulo 2^32 are the same value. */
  lemma CongruentInt32sAreEqual(x: Int32, y: Int32)
    requires (x - y) % MODULUS == 0
    ensures x == y
  {
    var d := x - y;
    assert d == MODULUS * (d / MODULUS);
    assert -MODULUS < d < MODULUS;
  }

  /** Wrapping an intermediate result changes nothing: `(a wrapped) + b` wraps to the same `int` as `a + b`.
      This is why a running Java `int` sum equals the exact sum wrapped once at the end. */
  lemma WrapAdd(a: int, b: int)
    ensures Wrap32(Wrap32(a) + b) == Wrap32(a + b)
  {
    var u, v := Wrap32(Wrap32(a) + b), Wrap32(a + b);
    WrapIsCongruent(a);
    WrapIsCongruent(Wrap32(a) + b);
    WrapIsCongruent(a + b);
    var k1 := (a - Wrap32(a)) / MODULUS;
    var k2 := (Wrap32(a) + b - u) / MODULUS;
    var k3 := (a + b - v) / MODULUS;
    assert u - v == MODULUS * (k3 - k1 - k2);
    CongruentInt32sAreEqual(u, v);
  }
}
