/** Fixed-width integers as Go computes with them: 64-bit wrap-around, truncated division
    and the saturating difference of two instants. */
module GoInt {

  const MAX_INT64: int := 0x7fff_ffff_ffff_ffff
  const TWO_63: int := 0x8000_0000_0000_0000
  const TWO_64: int := 0x1_0000_0000_0000_0000

  predicate IsInt64(x: int) { -TWO_63 <= x < TWO_63 }

  predicate IsUint64(x: int) { 0 <= x < TWO_64 }

  /** Conversion to uint64: the residue modulo 2^64. */
  function Uint64(x: int): (r: int)
    ensures IsUint64(r) && (IsUint64(x) ==> r == x)
  {
    x % TWO_64
  }

  /** Conversion to int64: the residue modulo 2^64 read in two's complement. */
  function Int64(x: int): (r: int)
    ensures IsInt64(r) && (IsInt64(x) ==> r == x)
  {
    (x + TWO_63) % TWO_64 - TWO_63
  }

  /** Integer division rounding toward zero. */
  function Quo(x: int, y: int): (r: int)
    requires y != 0
  {
    if x >= 0 then x / y else -(-x / y)
  }

  /** The remainder is smaller than the divisor and has the sign of the dividend. */
  lemma {:induction false} QuoTruncates(x: int, y: int)
    requires y > 0
    ensures var rest := x - Quo(x, y) * y;
            (x >= 0 ==> 0 <= rest < y) && (x <= 0 ==> -y < rest <= 0)
  {
    if x < 0 {
      assert Quo(x, y) == -(-x / y) && -(-x / y) * y == -((-x / y) * y);
    }
  }

  function Max(x: int, y: int): int { if x < y then y else x }

  function Min(x: int, y: int): int { if x < y then x else y }

  /** `t.Sub(u)` of package time: the difference, clamped to the int64 nanosecond range. */
  function Sub(t: int, u: int): (d: int)
    ensures IsInt64(d)
  {
    if t - u < -TWO_63 then -TWO_63 else if t - u > MAX_INT64 then MAX_INT64 else t - u
  }

  /** int64 arithmetic is arithmetic modulo 2^64: wrapping an intermediate value changes nothing. */
  lemma {:induction false} Int64Congruence(x: int, y: int)
    requires (x - y) % TWO_64 == 0
    ensures Int64(x) == Int64(y)
  {
    var k := (x - y) / TWO_64;
    assert x == y + k * TWO_64;
    assert x + TWO_63 == (y + TWO_63) + k * TWO_64;
    ModShift(y + TWO_63, k);
  }

  lemma {:induction false} ModShift(y: int, k: int)
    ensures (y + k * TWO_64) % TWO_64 == y % TWO_64
  {
    var q, r := y / TWO_64, y % TWO_64;
    assert y + k * TWO_64 == (q + k) * TWO_64 + r;
  }

  lemma {:induction false} WrapIsCongruent(x: int)
    ensures (Int64(x) - x) % TWO_64 == 0 && (Uint64(x) - x) % TWO_64 == 0
  {
    var q := (x + TWO_63) / TWO_64;
    assert Int64(x) - x == 0 + (-q) * TWO_64;
    ModShift(0, -q);
    var p := x / TWO_64;
    assert Uint64(x) - x == 0 + (-p) * TWO_64;
    ModShift(0, -p);
  }

  /** A running int64 sum is the wrapped sum. */
  lemma {:induction false} Int64Add(x: int, y: int)
    ensures Int64(Int64(x) + y) == Int64(x + y)
  {
    WrapIsCongruent(x);
    Int64Congruence(Int64(x) + y, x + y);
  }

  // Order and multiplication.

  lemma {:induction false} MulLe(a: int, b: int, c: int)
    requires a <= b && 0 <= c
    ensures a * c <= b * c && c * a <= c * b
  {
    assert (b - a) * c >= 0;
  }

  /** Comparing with a quotient is comparing the product. */
  lemma {:induction false} QuotientBound(m: int, d: int, q: int)
    requires 0 < d
    ensures m / d < q <==> q * d > m
  {
    var p := m / d;
    assert m == d * p + m % d;
    if p < q { MulLe(p + 1, q, d); } else { MulLe(q, p, d); }
  }
}
