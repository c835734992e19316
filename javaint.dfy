/**
 * Java's 32-bit `int`: its range, and the two's-complement wrap-around of
 * `+` that the `sum` aggregation and the statistics totals inherit.
 */
module JavaInt {

  const MinInt: int := -0x8000_0000
  /** Integer.MAX_VALUE */
  const MaxInt: int := 0x7fff_ffff
  const Modulus: int := 0x1_0000_0000

  type Int32 = x: int | MinInt <= x <= MaxInt

  /** The int that Java's arithmetic leaves for the mathematical value x. */
  function Wrap(x: int): (r: Int32)
    ensures (x - r) % Modulus == 0
    ensures MinInt <= x <= MaxInt ==> r == x
  {
    (x - MinInt) % Modulus + MinInt
  }

  /** Java's `a + b` on two ints. */
  function Add(a: Int32, b: Int32): (r: Int32)
    ensures (a + b - r) % Modulus == 0
    ensures MinInt <= a + b <= MaxInt ==> r == a + b
  {
    Wrap(a + b)
  }

  /** Wrap picks the one int that is congruent to x modulo 2^32. */
  lemma {:induction false} WrapUnique(x: int, r: int)
    requires MinInt <= r <= MaxInt
    requires (x - r) % Modulus == 0
    ensures r == Wrap(x)
  {
    var w := Wrap(x);
    var k := (x - r) / Modulus;
    var k' := (x - w) / Modulus;
    assert x - r == Modulus * k;
    assert x - w == Modulus * k';
    assert w - r == Modulus * (k - k');
  }

  /** Wrapping an intermediate result does not change the wrapped total. */
  lemma {:induction false} WrapAdd(x: int, y: int)
    ensures Wrap(Wrap(x) + y) == Wrap(x + y)
  {
    var w := Wrap(x);
    var k := (x - w) / Modulus;
    assert x - w == Modulus * k;
    var r := Wrap(w + y);
    var j := (w + y - r) / Modulus;
    assert w + y - r == Modulus * j;
    assert x + y - r == Modulus * (j + k);
    WrapUnique(x + y, r);
  }
}
