/** Facts about products, quotients and rounding that the solver does not find by itself. */
module Arithmetic {
  lemma MulMonotone(a: real, b: real, c: real)
    requires a <= b && c >= 0.0
    ensures a * c <= b * c
  {
  }

  lemma MulStrict(a: real, b: real, c: real)
    requires a < b && c > 0.0
    ensures a * c < b * c
  {
  }

  lemma PositiveProduct(a: real, b: real)
    requires a > 0.0 && b > 0.0
    ensures a * b > 0.0
  {
  }

  lemma DivideBound(a: real, b: real, c: real)
    requires c > 0.0 && a * c <= b
    ensures a <= b / c
  {
    MulOrder(a, b / c, c);
    assert b / c * c == b;
  }

  lemma MulOrder(a: real, b: real, c: real)
    requires c > 0.0
    ensures a <= b <==> a * c <= b * c
  {
    if a <= b { MulMonotone(a, b, c); } else { MulStrict(b, a, c); }
  }

  lemma IntMulOrder(a: int, b: int, c: int)
    requires c > 0
    ensures a <= b <==> a * c <= b * c
    ensures a < b <==> a * c < b * c
  {
  }

  lemma RoundDown(q: int, d: int)
    requires q >= 0 && d > 0
    ensures (q / d * d) % d == 0
    ensures 0 <= q / d * d && q - d < q / d * d <= q
  {
    assert q == q / d * d + q % d;
    MultipleOf(q / d, d);
    IntMulOrder(0, q / d, d);
  }

  lemma MultipleOf(k: int, d: int)
    requires d > 0
    ensures (k * d) % d == 0
    ensures (k * d) / d == k
  {
    QuotientUnique(k * d, d, k, 0);
  }

  lemma QuotientUnique(x: int, d: int, q: int, r: int)
    requires d > 0 && x == q * d + r && 0 <= r < d
    ensures x / d == q && x % d == r
  {
    var q', r' := x / d, x % d;
    assert x == q' * d + r';
    IntMulOrder(q', q + 1, d);
    IntMulOrder(q, q' + 1, d);
    assert (q + 1) * d == q * d + d && (q' + 1) * d == q' * d + d;
  }

  lemma RoundDownKeeps(other: int, q: int, d: int)
    requires d > 0 && 0 <= other <= q && other % d == 0
    ensures q > 0 ==> other <= q / d * d
  {
    assert other == other / d * d && q == q / d * d + q % d;
    IntMulOrder(other / d, q / d + 1, d);
    assert (q / d + 1) * d == q / d * d + d;
    IntMulOrder(other / d, q / d, d);
  }

  lemma NeighbouringMultiples(q: int, d: int)
    requires d > 0 && q > 0 && q % d == 0
    ensures q - d >= 0 && (q - d) % d == 0
    ensures forall other: int :: q - d < other < q ==> other % d != 0
  {
    var k := q / d;
    assert q == k * d;
    assert (k - 1) * d == q - d;
    MultipleOf(k - 1, d);
    IntMulOrder(0, k, d);
    IntMulOrder(0, k - 1, d);
    forall other: int | q - d < other < q
      ensures other % d != 0
    {
      QuotientUnique(other, d, k - 1, other - (q - d));
    }
  }
}
