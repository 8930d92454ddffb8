/** Solvency from the inputs: no run can hold more shares than the best trades in hindsight without any
    cost would buy, so it is enough that sales of quantities within that reach keep money. */
module BacktestReach {
  import opened Arithmetic
  import opened Backtester
  import opened BacktestCosts
  import opened BacktestInputs
  import opened BacktestLedger
  import opened Execution
  import opened PositionSizing
  import opened Slippage
  import opened Wrappers

  /** The most cash, and the most shares, that the prices up to a bar allow. */
  datatype Reach = Reach(cash: real, shares: real)

  function Highest(v: BarView, close: real): real {
    Max(Max(v.price, close), v.fill.GetOr(close))
  }

  /** Shares are bought at the price of a fill; everything is sold at the best price of the bar. */
  function ReachStep(v: BarView, close: real, e: Reach): (r: Reach)
    ensures e.cash <= r.cash && e.shares <= r.shares
  {
    Reach(Max(e.cash, e.shares * Highest(v, close)),
          if v.fill.Some? && v.fill.value > 0.0 then Max(e.shares, e.cash / v.fill.value) else e.shares)
  }

  function ReachAt(initialCash: real, t: Tape, n: nat): Reach
    requires t.Valid() && n <= |t.views|
  {
    if n == 0 then Reach(initialCash, 0.0)
    else ReachStep(t.views[n - 1], t.closes[n - 1], ReachAt(initialCash, t, n - 1))
  }

  predicate IsSalePrice(v: BarView, close: real, price: real) {
    price == v.price || price == close || v.fill == Some(price)
  }

  /** No sale of a quantity within reach costs more than it brings in. */
  ghost predicate SalesWithinReachKeepMoney(c: Config, t: Tape)
    requires t.Valid()
  {
    forall i, qty, price ::
      0 <= i < |t.views| && 0 < qty && qty as real <= ReachAt(c.initialCash, t, i + 1).shares
      && IsSalePrice(t.views[i], t.closes[i], price) ==>
        c.execution.CostRate(qty, price, t.views[i].avgVol) <= 1.0
  }

  /** Cash is within reach; a position and the cash beside it are worth no more at its entry price than
      the cash within reach, and would buy no more than the shares within reach. */
  predicate Within(s: State, e: Reach) {
    && s.cash <= e.cash
    && (s.position > 0 ==>
          && s.positionPrice > 0.0
          && s.cash + s.position as real * s.positionPrice <= e.cash
          && s.cash + s.position as real * s.positionPrice <= e.shares * s.positionPrice)
  }

  // ----- arithmetic -----

  /** A position within reach is no larger than the shares within reach. */
  lemma PositionWithin(s: State, e: Reach)
    requires Within(s, e) && s.position > 0 && s.cash >= 0.0
    ensures s.position as real <= e.shares
  {
    MulOrder(s.position as real, e.shares, s.positionPrice);
  }

  /** Selling q shares bought at p, at h: either the worth at p bounds it or the worth in shares does. */
  lemma SaleWithin(cash: real, q: real, p: real, h: real, maxCash: real, maxShares: real)
    requires cash >= 0.0 && q >= 0.0 && p > 0.0 && h >= 0.0
    requires cash + q * p <= maxCash && cash + q * p <= maxShares * p
    ensures cash + q * h <= maxCash || cash + q * h <= maxShares * h
  {
    if h <= p {
      MulMonotone(h, p, q);
      assert q * h == h * q && q * p == p * q;
    } else {
      ScaledWorth(cash, q, p, h, maxShares);
    }
  }

  lemma ScaledWorth(cash: real, q: real, p: real, h: real, maxShares: real)
    requires cash >= 0.0 && 0.0 < p < h && cash + q * p <= maxShares * p
    ensures cash + q * h <= maxShares * h
  {
    var spare := maxShares - q;
    assert spare * p == maxShares * p - q * p;
    NonNegativeFactor(spare, p);
    MulMonotone(p, h, spare);
    assert p * spare == spare * p && h * spare == spare * h;
    assert spare * h == maxShares * h - q * h;
  }

  lemma NonNegativeFactor(x: real, p: real)
    requires p > 0.0 && x * p >= 0.0
    ensures x >= 0.0
  {
    if x < 0.0 { MulStrict(x, 0.0, p); }
  }

  lemma BoughtShares(cash: real, p: real)
    requires p > 0.0
    ensures cash / p * p == cash
  {
  }

  // ----- one entry -----

  lemma ReachOfSale(v: BarView, close: real, e: Reach, price: real)
    requires e.shares >= 0.0 && price <= Highest(v, close)
    ensures e.shares * price <= ReachStep(v, close, e).cash
  {
    MulMonotone(price, Highest(v, close), e.shares);
    assert price * e.shares == e.shares * price && Highest(v, close) * e.shares == e.shares * Highest(v, close);
  }

  lemma SaleBound(cash: real, proceeds: real, q: real, p: real, h: real, e: Reach, maxCash: real)
    requires cash >= 0.0 && q >= 0.0 && p > 0.0 && h >= 0.0 && proceeds <= q * h
    requires cash + q * p <= e.cash && cash + q * p <= e.shares * p && e.cash <= maxCash && e.shares * h <= maxCash
    ensures cash + proceeds <= maxCash
  {
    SaleWithin(cash, q, p, h, e.cash, e.shares);
  }

  /** A sale of the whole position keeps within reach. */
  lemma SoldWithin(c: Config, v: BarView, close: real, s: State, action: Action, price: real, e: Reach)
    requires Within(s, e) && s.position > 0 && s.cash >= 0.0 && price >= 0.0 && e.shares >= 0.0
    requires c.execution.NonNegativeCosts() && price <= Highest(v, close)
    ensures Within(CloseLong(c, v, s, action, price), ReachStep(v, close, e))
  {
    hide ExecutionModel.SellProceeds;
    SaleAtMostGross(c, s.position, price, v.avgVol);
    ReachOfSale(v, close, e, price);
    SaleBound(s.cash, c.execution.SellProceeds(s.position, price, v.avgVol), s.position as real, s.positionPrice, price,
              e, ReachStep(v, close, e).cash);
    assert CloseLong(c, v, s, action, price).cash
        == s.cash + c.execution.SellProceeds(s.position, price, v.avgVol);
  }

  lemma SaleAtMostGross(c: Config, qty: int, price: real, volume: real)
    requires c.execution.NonNegativeCosts() && qty >= 0 && price >= 0.0
    ensures c.execution.SellProceeds(qty, price, volume) <= qty as real * price
  {
    c.execution.FillCosts(qty, price, volume);
    CostNonNegative(c, qty, price, volume);
  }

  lemma BoughtWithin(c: Config, v: BarView, close: real, s: State, qty: int, price: real, e: Reach)
    requires Within(s, e) && s.position == 0 && qty > 0 && price > 0.0 && v.fill == Some(price)
    requires c.execution.NonNegativeCosts()
    ensures Within(Bought(c, v, s, qty, price), ReachStep(v, close, e))
  {
    c.execution.FillCosts(qty, price, v.avgVol);
    CostNonNegative(c, qty, price, v.avgVol);
    WorthInShares(s.cash, e.cash, ReachStep(v, close, e).shares, price);
  }

  lemma WorthInShares(cash: real, maxCash: real, shares: real, price: real)
    requires cash <= maxCash && price > 0.0 && maxCash / price <= shares
    ensures cash <= shares * price
  {
    BoughtShares(maxCash, price);
    MulMonotone(maxCash / price, shares, price);
  }

  lemma KeptWithin(s: State, r: State, v: BarView, close: real, e: Reach)
    requires Within(s, e) && r.cash == s.cash && r.position == s.position && r.positionPrice == s.positionPrice
    ensures Within(r, ReachStep(v, close, e))
  {
    var e' := ReachStep(v, close, e);
    if s.position > 0 { MulMonotone(e.shares, e'.shares, s.positionPrice); }
  }

  /** An entry is only made at a positive price. */
  lemma EntryPricePositive(c: Config, v: BarView, cash: real, price: real)
    requires c.Valid() && EntryQty(c, v, cash, price) > 0
    ensures price > 0.0
  {
    if c.execution.UnitBuyCost(price) > 0.0 { PositivePrice(price, c.execution); }
  }

  // ----- one bar -----

  /** What holds before bar n of a long-only run. */
  ghost predicate LongOnly(c: Config, t: Tape) {
    && c.Valid() && t.Valid() && c.initialCash >= 0.0 && !c.enableShort
    && c.execution.NonNegativeCosts() && c.execution.MonotoneImpact() && NonNegativePrices(t)
  }

  lemma ReachNonNegative(initialCash: real, t: Tape, n: nat)
    requires t.Valid() && n <= |t.views| && initialCash >= 0.0
    ensures ReachAt(initialCash, t, n).shares >= 0.0 && ReachAt(initialCash, t, n).cash >= 0.0
  {
  }

  lemma TradeWithin(c: Config, t: Tape, s: State, n: nat, e: Reach)
    requires LongOnly(c, t) && n < |t.views| && Within(s, e) && s.cash >= 0.0 && s.position >= 0 && e.shares >= 0.0
    ensures Within(Trade(c, t.views[n], s), ReachStep(t.views[n], t.closes[n], e))
  {
    var v, close := t.views[n], t.closes[n];
    if v.fill.Some? && v.signal == 1 && s.position == 0 && EntryQty(c, v, s.cash, v.fill.value) > 0 {
      EntryPricePositive(c, v, s.cash, v.fill.value);
      BoughtWithin(c, v, close, s, EntryQty(c, v, s.cash, v.fill.value), v.fill.value, e);
    } else if v.fill.Some? && v.signal == -1 && s.position > 0 {
      SoldWithin(c, v, close, s, Sell, v.fill.value, e);
    } else {
      KeptWithin(s, s, v, close, e);
    }
  }

  lemma SameMoney(s: State, r: State, e: Reach)
    requires r.cash == s.cash && r.position == s.position && r.positionPrice == s.positionPrice
    ensures Within(s, e) == Within(r, e)
  {
  }

  lemma ExitWithin(c: Config, t: Tape, s: State, n: nat, action: Action, price: real, e: Reach)
    requires LongOnly(c, t) && n < |t.views| && Within(s, e) && s.cash >= 0.0 && s.position > 0 && e.shares >= 0.0
    requires price == t.views[n].price || price == t.closes[n]
    ensures Within(Recorded(c, t.views[n], t.closes[n], CloseLong(c, t.views[n], s, action, price)),
                   ReachStep(t.views[n], t.closes[n], e))
  {
    var v, close := t.views[n], t.closes[n];
    SoldWithin(c, v, close, s, action, price, e);
    var m := CloseLong(c, v, s, action, price);
    SameMoney(m, Recorded(c, v, close, m), ReachStep(v, close, e));
  }

  lemma TradeStepWithin(c: Config, t: Tape, s: State, n: nat, e: Reach)
    requires LongOnly(c, t) && n < |t.views| && Within(s, e) && s.cash >= 0.0 && s.position >= 0 && e.shares >= 0.0
    ensures Within(Recorded(c, t.views[n], t.closes[n], Judged(c, t.closes[n], Trade(c, t.views[n], s))),
                   ReachStep(t.views[n], t.closes[n], e))
  {
    var v, close := t.views[n], t.closes[n];
    TradeWithin(c, t, s, n, e);
    var m := Trade(c, v, s);
    SameMoney(m, Recorded(c, v, close, Judged(c, close, m)), ReachStep(v, close, e));
  }

  lemma StepWithin(c: Config, t: Tape, s: State, n: nat, e: Reach)
    requires LongOnly(c, t) && n < |t.views| && Within(s, e) && s.cash >= 0.0 && s.position >= 0 && e.shares >= 0.0
    ensures Within(Step(c, t.views[n], t.closes[n], s), ReachStep(t.views[n], t.closes[n], e))
  {
    var v, close := t.views[n], t.closes[n];
    var s0 := s.(pendingExit := None);
    SameMoney(s, s0, e);
    var due := ExitDue(s.position, s.positionPrice, s.positionStop, c.takeProfitPct, close);
    if s.pendingExit.Some? && s.position > 0 {
      ExitWithin(c, t, s0, n, s.pendingExit.value, v.price, e);
    } else if c.executionLag == 0 && due.Some? {
      ExitWithin(c, t, s0, n, due.value, close, e);
    } else {
      TradeStepWithin(c, t, s0, n, e);
    }
  }

  /** The one entry a bar adds is a purchase, or the sale of the whole position at a price of the bar. */
  predicate AddsBuyOrSale(v: BarView, close: real, s: State, r: State) {
    r.log == s.log
    || (|r.log| == |s.log| + 1 && r.log[..|s.log|] == s.log && r.log[|s.log|].bar == v.bar
        && (r.log[|s.log|].action == Buy
            || (s.position > 0 && r.log[|s.log|].qty == s.position && IsSalePrice(v, close, r.log[|s.log|].price))))
  }

  lemma StepAdds(c: Config, t: Tape, s: State, n: nat)
    requires LongOnly(c, t) && n < |t.views| && s.position >= 0 && s.shortPosition == 0
    ensures AddsBuyOrSale(t.views[n], t.closes[n], s, Step(c, t.views[n], t.closes[n], s))
  {
  }

  /** The sale within reach keeps money, so the longer log is one of such sales. */
  lemma SalesKept(c: Config, t: Tape, s: State, r: State, n: nat)
    requires LongOnly(c, t) && n < |t.views| && SalesWithinReachKeepMoney(c, t)
    requires SalesKeepMoney(c, t, s.log) && AddsBuyOrSale(t.views[n], t.closes[n], s, r)
    requires Within(s, ReachAt(c.initialCash, t, n + 1)) && s.cash >= 0.0
    ensures SalesKeepMoney(c, t, r.log)
  {
    if s.position > 0 { PositionWithin(s, ReachAt(c.initialCash, t, n + 1)); }
  }

  predicate KeptAt(c: Config, t: Tape, n: nat)
    requires c.Valid() && t.Valid() && n <= |t.views|
  {
    SalesKeepMoney(c, t, Run(c, t, n).log) && Within(Run(c, t, n), ReachAt(c.initialCash, t, n))
  }

  lemma KeptAfter(c: Config, t: Tape, n: nat)
    requires LongOnly(c, t) && n < |t.views| && SalesWithinReachKeepMoney(c, t) && KeptAt(c, t, n)
    ensures KeptAt(c, t, n + 1)
  {
    var s, e := Run(c, t, n), ReachAt(c.initialCash, t, n);
    RunSolvent(c, t, n);
    NeverLongAndShort(c, t, n);
    LongRun(c, t, n);
    ReachNonNegative(c.initialCash, t, n);
    KeptWithin(s, s, t.views[n], t.closes[n], e);
    StepWithin(c, t, s, n, e);
    StepAdds(c, t, s, n);
    SalesKept(c, t, s, Run(c, t, n + 1), n);
  }

  lemma LongRun(c: Config, t: Tape, n: nat)
    requires LongOnly(c, t) && n <= |t.views|
    ensures Run(c, t, n).shortPosition == 0
  {
    RunKeeps(c, t, n);
  }

  lemma {:induction false} AllKept(c: Config, t: Tape, n: nat)
    requires LongOnly(c, t) && n <= |t.views| && SalesWithinReachKeepMoney(c, t)
    ensures KeptAt(c, t, n)
  {
    hide Run, ReachAt, KeptAt;
    if n == 0 {
      KeptAtStart(c, t);
    } else {
      AllKept(c, t, n - 1);
      KeptAfter(c, t, n - 1);
    }
  }

  lemma KeptAtStart(c: Config, t: Tape)
    requires c.Valid() && t.Valid()
    ensures Run(c, t, 0) == Initial(c) && KeptAt(c, t, 0)
  {
  }

  lemma SettledSales(c: Config, t: Tape)
    requires LongOnly(c, t) && SalesWithinReachKeepMoney(c, t)
    ensures SalesKeepMoney(c, t, Simulated(c, t).log)
  {
    var n := |t.views|;
    AllKept(c, t, n);
    if n > 0 {
      RunSolvent(c, t, n);
      LongRun(c, t, n);
      NeverLongAndShort(c, t, n);
      assert Run(c, t, n).position > 0 || Simulated(c, t) == Run(c, t, n);
      SalesKept(c, t, Run(c, t, n), Simulated(c, t), n - 1);
    }
  }

  /** Solvency from the inputs alone: prices of the table that are not negative, and sales within reach
      that keep money. Then cash is never negative, after any bar or in any log entry. */
  lemma LongOnlySolventOnInputs(c: Config, d: MarketData, n: nat)
    requires c.Valid() && d.Valid() && n <= |d.bars| && c.initialCash >= 0.0 && !c.enableShort
    requires c.execution.NonNegativeCosts() && c.execution.MonotoneImpact()
    requires forall i :: 0 <= i < |d.bars| ==> d.bars[i].open >= 0.0 && d.bars[i].close >= 0.0
    requires SalesWithinReachKeepMoney(c, TapeOf(c, d))
    ensures Run(c, TapeOf(c, d), n).cash >= 0.0 && Solvent(Simulated(c, TapeOf(c, d)))
  {
    TapePricesNonNegative(c, d);
    SettledSales(c, TapeOf(c, d));
    LongOnlyNeverOverdrawn(c, TapeOf(c, d), n);
  }

  // ----- the square-root impact -----

  /** Of every bar with a volume, the shares within reach are at most `share` squared of the volume. */
  predicate ParticipationWithin(c: Config, t: Tape, share: real)
    requires t.Valid()
  {
    forall i :: 0 <= i < |t.views| && t.views[i].avgVol > 0.0 ==>
      ReachAt(c.initialCash, t, i + 1).shares <= share * share * t.views[i].avgVol
  }

  /** The square-root impact of a quantity that is at most `share` squared of the volume is at most alpha
      times `share`. */
  lemma ImpactOfShare(f: SlippageFn, alpha: real, share: real, qty: int, price: real, volume: real)
    requires SquareRootImpact(f, alpha) && alpha >= 0.0 && share >= 0.0
    requires volume > 0.0 && qty > 0 && qty as real <= share * share * volume
    ensures f(qty, price, volume) <= alpha * share
  {
    MulMonotone(0.0, alpha, share);
    if price > 0.0 {
      var participation := qty as real / volume;
      assert participation * volume == qty as real;
      MulOrder(participation, share * share, volume);
      SquareBound(alpha, share, participation);
      SquareOrder(f(qty, price, volume), alpha * share);
    }
  }

  lemma SquareBound(alpha: real, share: real, participation: real)
    requires participation <= share * share
    ensures alpha * alpha * participation <= (alpha * share) * (alpha * share)
  {
    assert alpha * alpha >= 0.0;
    MulMonotone(participation, share * share, alpha * alpha);
    assert (alpha * share) * (alpha * share) == alpha * alpha * (share * share);
  }

  /** The square-root impact is an instance: it is enough that fee, slippage and alpha times the root of
      the largest participation within reach are together at most one. */
  lemma SquareRootKeepsMoney(c: Config, t: Tape, alpha: real, share: real)
    requires t.Valid() && c.execution.slippageFn.Some? && SquareRootImpact(c.execution.slippageFn.value, alpha)
    requires alpha >= 0.0 && share >= 0.0 && ParticipationWithin(c, t, share)
    requires c.execution.costs.feeRate + c.execution.costs.slippageRate + alpha * share <= 1.0
    ensures SalesWithinReachKeepMoney(c, t)
  {
    MulMonotone(0.0, alpha, share);
    forall i, qty, price |
      0 <= i < |t.views| && 0 < qty && qty as real <= ReachAt(c.initialCash, t, i + 1).shares
      && IsSalePrice(t.views[i], t.closes[i], price)
      ensures c.execution.CostRate(qty, price, t.views[i].avgVol) <= 1.0
    {
      if t.views[i].avgVol > 0.0 {
        ImpactOfShare(c.execution.slippageFn.value, alpha, share, qty, price, t.views[i].avgVol);
      }
    }
  }
}
