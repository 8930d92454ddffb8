/** The square-root market impact model, one instance of a slippage function. Reals have no
    square root here, so the model is any function whose square is the participation rate
    times the square of the coefficient. */
module Slippage {
  import opened Arithmetic
  import opened Wrappers
  import opened Execution

  const DEFAULT_ALPHA := 0.10

  ghost predicate SquareRootImpact(f: SlippageFn, alpha: real) {
    forall q, p, v ::
      if v <= 0.0 || q <= 0 || p <= 0.0 then f(q, p, v) == 0.0
      else f(q, p, v) >= 0.0 && f(q, p, v) * f(q, p, v) == alpha * alpha * (q as real / v)
  }

  lemma SquareStrict(x: real, y: real)
    requires 0.0 <= x < y
    ensures x * x < y * y
  {
    assert y * y - x * x == (y - x) * (y + x);
    PositiveProduct(y - x, y + x);
  }

  lemma SquareOrder(x: real, y: real)
    requires x >= 0.0 && y >= 0.0 && x * x <= y * y
    ensures x <= y
  {
    if y < x { SquareStrict(y, x); }
  }

  /** The square-root model meets both assumptions the simulator's guarantees rest on. */
  lemma SquareRootImpactIsAdmissible(m: ExecutionModel, alpha: real)
    requires alpha >= 0.0
    requires m.costs.feeRate >= 0.0 && m.costs.slippageRate >= 0.0
    requires m.slippageFn.Some? && SquareRootImpact(m.slippageFn.value, alpha)
    ensures m.NonNegativeCosts() && m.MonotoneImpact()
  {
    var f := m.slippageFn.value;
    forall q1: int, q2: int, p: real, v: real | q1 <= q2
      ensures f(q1, p, v) <= f(q2, p, v)
    {
      if v > 0.0 && p > 0.0 && q1 > 0 {
        assert q1 as real / v <= q2 as real / v by { ShareMonotone(q1 as real, q2 as real, v); }
        MulMonotone(q1 as real / v, q2 as real / v, alpha * alpha);
        SquareOrder(f(q1, p, v), f(q2, p, v));
      }
    }
  }

  lemma ShareMonotone(a: real, b: real, v: real)
    requires a <= b && v > 0.0
    ensures a / v <= b / v
  {
    MulOrder(a / v, b / v, v);
    assert a / v * v == a && b / v * v == b;
  }
}
