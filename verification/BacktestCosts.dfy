/** The exact cost ledger and the solvency of a run. */
module BacktestCosts {
  import opened Arithmetic
  import opened Backtester
  import opened BacktestInputs
  import opened BacktestLedger
  import opened Execution
  import opened LimitOrderRules
  import opened PositionSizing
  import opened TickSize
  import opened Wrappers

  /** Fee plus slippage of a log entry, at the average volume of its bar. */
  function RateOf(c: Config, t: Tape, e: LogEntry): real
    requires e.bar < |t.views|
  {
    c.execution.CostRate(e.qty, e.price, t.views[e.bar].avgVol)
  }

  /** What a fill costs: quantity times price times its fee and slippage. */
  function CostOf(c: Config, t: Tape, e: LogEntry): real
    requires e.bar < |t.views|
  {
    e.qty as real * e.price * RateOf(c, t, e)
  }

  predicate BarsWithin(t: Tape, log: seq<LogEntry>) {
    forall i :: 0 <= i < |log| ==> log[i].bar < |t.views|
  }

  function TotalCost(c: Config, t: Tape, log: seq<LogEntry>): real
    requires BarsWithin(t, log)
  {
    if log == [] then 0.0 else TotalCost(c, t, log[..|log| - 1]) + CostOf(c, t, log[|log| - 1])
  }

  lemma TotalCostAppend(c: Config, t: Tape, log: seq<LogEntry>, e: LogEntry)
    requires BarsWithin(t, log) && e.bar < |t.views|
    ensures TotalCost(c, t, log + [e]) == TotalCost(c, t, log) + CostOf(c, t, e)
  {
    assert (log + [e])[..|log|] == log;
  }

  /** The cost of the fills that have been settled: an open short is settled when it is covered. */
  function SettledCost(c: Config, t: Tape, s: State): real
    requires BarsWithin(t, s.log)
  {
    TotalCost(c, t, s.log)
    - (if s.shortPosition > 0 && |s.log| > 0 then CostOf(c, t, s.log[|s.log| - 1]) else 0.0)
  }

  /** The gap between gross and net cash is the cost of the settled fills. */
  predicate Ledger(c: Config, t: Tape, s: State) {
    BarsWithin(t, s.log) && s.cashGross - s.cash == SettledCost(c, t, s)
  }

  lemma CloseLongLedger(c: Config, t: Tape, s: State, n: nat, action: Action, price: real)
    requires t.Valid() && n < |t.views| && Ledger(c, t, s) && s.shortPosition <= 0
    ensures Ledger(c, t, CloseLong(c, t.views[n], s, action, price))
  {
    var r := CloseLong(c, t.views[n], s, action, price);
    c.execution.FillCosts(s.position, price, t.views[n].avgVol);
    TotalCostAppend(c, t, s.log, r.log[|s.log|]);
  }

  lemma CoverShortLedger(c: Config, t: Tape, s: State, n: nat, action: Action, price: real)
    requires c.Valid() && t.Valid() && n < |t.views| && Ledger(c, t, s) && OpenMatchesLog(c, t, s)
              && s.shortPosition > 0
    ensures Ledger(c, t, CoverShort(c, t.views[n], s, action, price))
  {
    var r := CoverShort(c, t.views[n], s, action, price);
    c.execution.FillCosts(s.shortPosition, price, t.views[n].avgVol);
    c.execution.FillCosts(s.shortPosition, s.shortPrice, s.shortEntryVol);
    TotalCostAppend(c, t, s.log, r.log[|s.log|]);
    PriceDifference(s.shortPrice, price, s.shortPosition as real);
  }

  lemma PriceDifference(a: real, b: real, q: real)
    ensures (a - b) * q == q * a - q * b
  {
  }

  lemma BoughtLedger(c: Config, t: Tape, s: State, n: nat, qty: int, price: real)
    requires t.Valid() && n < |t.views| && Ledger(c, t, s) && s.shortPosition <= 0
    ensures Ledger(c, t, Bought(c, t.views[n], s, qty, price))
  {
    var r := Bought(c, t.views[n], s, qty, price);
    c.execution.FillCosts(qty, price, t.views[n].avgVol);
    TotalCostAppend(c, t, s.log, r.log[|s.log|]);
  }

  lemma OpenLongLedger(c: Config, t: Tape, s: State, n: nat, price: real)
    requires c.Valid() && t.Valid() && n < |t.views| && Ledger(c, t, s) && s.shortPosition <= 0
    ensures Ledger(c, t, OpenLong(c, t.views[n], s, price))
  {
    BoughtLedger(c, t, s, n, EntryQty(c, t.views[n], s.cash, price), price);
  }

  lemma OpenShortLedger(c: Config, t: Tape, s: State, n: nat, price: real)
    requires c.Valid() && t.Valid() && n < |t.views| && Ledger(c, t, s) && s.shortPosition <= 0
    ensures Ledger(c, t, OpenShort(c, t.views[n], s, price))
  {
    var r := OpenShort(c, t.views[n], s, price);
    if r != s { TotalCostAppend(c, t, s.log, r.log[|s.log|]); }
  }

  lemma TradeLedger(c: Config, t: Tape, s: State, n: nat)
    requires c.Valid() && t.Valid() && n < |t.views| && WellKept(c, t, s, n) && Ledger(c, t, s)
    ensures Ledger(c, t, Trade(c, t.views[n], s))
  {
    var v := t.views[n];
    var price := v.fill.GetOr(v.price);
    if s.shortPosition > 0 {
      CoverShortLedger(c, t, s, n, ShortCover, price);
    } else {
      CloseLongLedger(c, t, s, n, Sell, price);
      OpenLongLedger(c, t, s, n, price);
      OpenShortLedger(c, t, s, n, price);
    }
  }

  lemma StepLedger(c: Config, t: Tape, s: State, n: nat)
    requires c.Valid() && t.Valid() && n < |t.views| && WellKept(c, t, s, n) && Ledger(c, t, s)
    ensures Ledger(c, t, Step(c, t.views[n], t.closes[n], s))
  {
    var v, close := t.views[n], t.closes[n];
    var s0 := s.(pendingExit := None);
    var due := ExitDue(s.position, s.positionPrice, s.positionStop, c.takeProfitPct, close);
    if s.pendingExit.Some? && s.position > 0 {
      CloseLongLedger(c, t, s0, n, s.pendingExit.value, v.price);
    } else if c.executionLag == 0 && due.Some? {
      CloseLongLedger(c, t, s0, n, due.value, close);
    } else {
      TradeLedger(c, t, s0, n);
    }
  }

  /** Exact cost ledger: after every bar, gross minus net cash is the sum, over the fills settled so
      far, of quantity times price times the fee and slippage of that fill. */
  lemma {:induction false} RunLedger(c: Config, t: Tape, n: nat)
    requires c.Valid() && t.Valid() && n <= |t.views|
    ensures Ledger(c, t, Run(c, t, n))
  {
    hide Run, Ledger;
    if n == 0 {
      LedgerAtStart(c, t);
    } else {
      RunLedger(c, t, n - 1);
      LedgerAfter(c, t, n - 1);
    }
  }

  lemma LedgerAtStart(c: Config, t: Tape)
    requires c.Valid() && t.Valid()
    ensures Run(c, t, 0) == Initial(c) && Ledger(c, t, Run(c, t, 0))
  {
  }

  lemma LedgerAfter(c: Config, t: Tape, n: nat)
    requires c.Valid() && t.Valid() && n < |t.views| && Ledger(c, t, Run(c, t, n))
    ensures Ledger(c, t, Run(c, t, n + 1))
  {
    RunKeeps(c, t, n);
    StepLedger(c, t, Run(c, t, n), n);
  }

  lemma SettledLedger(c: Config, t: Tape, s: State)
    requires c.Valid() && t.Valid() && WellKept(c, t, s, |t.views|) && Ledger(c, t, s)
    ensures Ledger(c, t, Settled(c, t, s)) && Settled(c, t, s).shortPosition <= 0
  {
    hide ExecutionModel.BuyCost, ExecutionModel.SellProceeds;
    if |t.views| > 0 {
      var n := |t.views| - 1;
      if s.position > 0 { CloseLongLedger(c, t, s, n, FinalSell, t.closes[n]); }
      if s.shortPosition > 0 { CoverShortLedger(c, t, s, n, FinalShortCover, t.closes[n]); }
    }
  }

  /** After the forced close nothing is open, and the whole log has been paid for. */
  lemma SimulationLedger(c: Config, t: Tape)
    requires c.Valid() && t.Valid()
    ensures var r := Simulated(c, t); BarsWithin(t, r.log) && r.cashGross - r.cash == TotalCost(c, t, r.log)
  {
    RunLedger(c, t, |t.views|);
    RunKeeps(c, t, |t.views|);
    SettledLedger(c, t, Run(c, t, |t.views|));
  }

  // ----- equity records -----

  /** Each record is the marking of the state after its bar, and stays as it was. */
  lemma RecordOfBar(c: Config, t: Tape, n: nat, i: nat)
    requires c.Valid() && t.Valid() && i < n <= |t.views|
    ensures i < |Run(c, t, n).equity|
    ensures Run(c, t, n).equity[i] == Marked(c, t.views[i], t.closes[i], Run(c, t, i + 1))
  {
    hide Run;
    EquityAfter(c, t, i);
    EquityPrefix(c, t, i + 1, n);
  }

  lemma EquityAfter(c: Config, t: Tape, i: nat)
    requires c.Valid() && t.Valid() && i < |t.views|
    ensures |Run(c, t, i).equity| == i
    ensures Run(c, t, i + 1).equity == Run(c, t, i).equity + [Marked(c, t.views[i], t.closes[i], Run(c, t, i + 1))]
  {
    RunKeeps(c, t, i);
    EquityAppends(c, t.views[i], t.closes[i], Run(c, t, i));
  }

  lemma EquityGrows(c: Config, t: Tape, n: nat)
    requires c.Valid() && t.Valid() && n < |t.views|
    ensures Run(c, t, n).equity <= Run(c, t, n + 1).equity
  {
    EquityAfter(c, t, n);
  }

  lemma {:induction false} EquityPrefix(c: Config, t: Tape, m: nat, n: nat)
    requires c.Valid() && t.Valid() && m <= n <= |t.views|
    ensures Run(c, t, m).equity <= Run(c, t, n).equity
    decreases n
  {
    hide Run;
    if m < n {
      EquityPrefix(c, t, m, n - 1);
      EquityGrows(c, t, n - 1);
      PrefixOfPrefix(Run(c, t, m).equity, Run(c, t, n - 1).equity, Run(c, t, n).equity);
    }
  }

  lemma EquityAppends(c: Config, v: BarView, close: real, s: State)
    requires c.Valid()
    ensures var r := Step(c, v, close, s); r.equity == s.equity + [Marked(c, v, close, r)]
  {
    var r := Step(c, v, close, s);
    MarkingIgnoresRecords(c, v, close, r, s.equity);
    assert r == Recorded(c, v, close, r.(equity := s.equity));
  }

  lemma MarkingIgnoresRecords(c: Config, v: BarView, close: real, s: State, equity: seq<EquityRecord>)
    ensures Marked(c, v, close, s) == Marked(c, v, close, s.(equity := equity))
  {
  }

  /** All fills so far, and for an open short the cost of covering it at the close. */
  function CostAtClose(c: Config, t: Tape, s: State, i: nat): real
    requires t.Valid() && i < |t.views| && BarsWithin(t, s.log)
  {
    TotalCost(c, t, s.log)
    + (if s.shortPosition > 0
       then s.shortPosition as real * t.closes[i] * c.execution.CostRate(s.shortPosition, t.closes[i],
           t.views[i].avgVol)
       else 0.0)
  }

  lemma MarkedGap(c: Config, t: Tape, s: State, i: nat)
    requires c.Valid() && t.Valid() && i < |t.views| && Ledger(c, t, s) && OpenMatchesLog(c, t, s)
    ensures var m := Marked(c, t.views[i], t.closes[i], s); m.gross - m.net == CostAtClose(c, t, s, i)
  {
    if s.shortPosition > 0 {
      c.execution.FillCosts(s.shortPosition, t.closes[i], t.views[i].avgVol);
      c.execution.FillCosts(s.shortPosition, s.shortPrice, s.shortEntryVol);
      PriceDifference(s.shortPrice, t.closes[i], s.shortPosition as real);
    }
  }

  /** All prices that a run can trade or mark at are non-negative. */
  predicate NonNegativePrices(t: Tape) {
    && |t.closes| == |t.views|
    && forall i :: 0 <= i < |t.views| ==>
         t.views[i].price >= 0.0 && t.closes[i] >= 0.0 && (t.views[i].fill.Some? ==> t.views[i].fill.value >= 0.0)
  }

  /** Non-negative openings and closes are enough: a limit price is never negative. */
  lemma TapePricesNonNegative(c: Config, d: MarketData)
    requires c.Valid() && d.Valid()
    requires forall i :: 0 <= i < |d.bars| ==> d.bars[i].open >= 0.0 && d.bars[i].close >= 0.0
    ensures NonNegativePrices(TapeOf(c, d))
  {
    var t := TapeOf(c, d);
    forall i | 0 <= i < |d.bars|
      ensures t.views[i].price >= 0.0 && t.closes[i] >= 0.0 && (t.views[i].fill.Some? ==> t.views[i].fill.value >= 0.0)
    {
      var inputs := BuildExecutionInputs(d, c.executionLag);
      assert inputs.price[i] >= 0.0;
      LimitNonNegative(c, d, i, inputs.signal[i].GetOr(0) == 1, inputs.price[i]);
    }
  }

  lemma LimitNonNegative(c: Config, d: MarketData, i: nat, isBuySide: bool, price: real)
    requires c.Valid() && i < |d.bars| && price >= 0.0
    ensures var f := BuildLimitFill(c, d).FillPrice(i, isBuySide, price); f.Some? ==> f.value >= 0.0
  {
  }

  predicate PricesIn(log: seq<LogEntry>) {
    forall i :: 0 <= i < |log| ==> log[i].price >= 0.0
  }

  lemma StepPrices(c: Config, t: Tape, s: State, n: nat)
    requires c.Valid() && t.Valid() && NonNegativePrices(t) && n < |t.views| && PricesIn(s.log)
    ensures PricesIn(Step(c, t.views[n], t.closes[n], s).log)
  {
  }

  lemma {:induction false} RunPrices(c: Config, t: Tape, n: nat)
    requires c.Valid() && t.Valid() && NonNegativePrices(t) && n <= |t.views|
    ensures PricesIn(Run(c, t, n).log)
  {
    if n > 0 {
      RunPrices(c, t, n - 1);
      PricesAfter(c, t, n - 1);
    }
  }

  lemma PricesAfter(c: Config, t: Tape, n: nat)
    requires c.Valid() && t.Valid() && NonNegativePrices(t) && n < |t.views| && PricesIn(Run(c, t, n).log)
    ensures PricesIn(Run(c, t, n + 1).log)
  {
    StepPrices(c, t, Run(c, t, n), n);
  }

  lemma CostNonNegative(c: Config, qty: int, price: real, volume: real)
    requires c.execution.NonNegativeCosts() && qty >= 0 && price >= 0.0
    ensures qty as real * price * c.execution.CostRate(qty, price, volume) >= 0.0
  {
    MulMonotone(0.0, qty as real, price);
    MulMonotone(0.0, qty as real * price, c.execution.CostRate(qty, price, volume));
  }

  lemma {:induction false} TotalCostNonNegative(c: Config, t: Tape, log: seq<LogEntry>)
    requires c.execution.NonNegativeCosts() && BarsWithin(t, log) && PricesIn(log) && WholeLots(c, log)
    ensures TotalCost(c, t, log) >= 0.0
  {
    if log != [] {
      var last := log[|log| - 1];
      TotalCostNonNegative(c, t, log[..|log| - 1]);
      CostNonNegative(c, last.qty, last.price, t.views[last.bar].avgVol);
    }
  }

  lemma CostAtCloseNonNegative(c: Config, t: Tape, s: State, i: nat)
    requires t.Valid() && i < |t.views| && c.execution.NonNegativeCosts() && NonNegativePrices(t)
    requires BarsWithin(t, s.log) && PricesIn(s.log) && WholeLots(c, s.log)
    ensures CostAtClose(c, t, s, i) >= 0.0
  {
    TotalCostNonNegative(c, t, s.log);
    if s.shortPosition > 0 { CostNonNegative(c, s.shortPosition, t.closes[i], t.views[i].avgVol); }
  }

  lemma RecordIsMarked(c: Config, t: Tape, i: nat)
    requires c.Valid() && t.Valid() && i < |t.views|
    ensures i < |Simulated(c, t).equity|
    ensures Simulated(c, t).equity[i] == Marked(c, t.views[i], t.closes[i], Run(c, t, i + 1))
  {
    SettledEquity(c, t, Run(c, t, |t.views|));
    RecordOfBar(c, t, |t.views|, i);
  }

  /** What the record of bar i must be for the state s after it: net at most gross, by exactly the
      costs paid so far and the cost of covering an open short now. */
  predicate GapRight(c: Config, t: Tape, s: State, r: EquityRecord, i: nat)
    requires t.Valid() && i < |t.views|
  {
    BarsWithin(t, s.log) && r.gross - r.net == CostAtClose(c, t, s, i) && r.net <= r.gross
  }

  /** All that a run keeps of its accounts. */
  predicate Accounted(c: Config, t: Tape, s: State, n: nat)
    requires c.Valid() && t.Valid()
  {
    Ledger(c, t, s) && WellKept(c, t, s, n) && PricesIn(s.log)
  }

  lemma RunAccounted(c: Config, t: Tape, n: nat)
    requires c.Valid() && t.Valid() && NonNegativePrices(t) && n <= |t.views|
    ensures Accounted(c, t, Run(c, t, n), n)
  {
    RunLedger(c, t, n);
    RunKeeps(c, t, n);
    RunPrices(c, t, n);
  }

  lemma GapOfState(c: Config, t: Tape, s: State, r: EquityRecord, i: nat)
    requires c.Valid() && t.Valid() && i < |t.views| && Accounted(c, t, s, i + 1)
    requires c.execution.NonNegativeCosts() && NonNegativePrices(t)
    requires r == Marked(c, t.views[i], t.closes[i], s)
    ensures GapRight(c, t, s, r, i)
  {
    MarkedGap(c, t, s, i);
    CostAtCloseNonNegative(c, t, s, i);
  }

  /** Every equity record is net <= gross, and the difference is exactly what has been paid in costs
      up to its bar plus what covering an open short would cost now. */
  lemma EquityNetAtMostGross(c: Config, t: Tape, i: nat)
    requires c.Valid() && t.Valid() && i < |t.views|
    requires c.execution.NonNegativeCosts() && NonNegativePrices(t)
    ensures i < |Simulated(c, t).equity|
    ensures GapRight(c, t, Run(c, t, i + 1), Simulated(c, t).equity[i], i)
  {
    RecordIsMarked(c, t, i);
    RunAccounted(c, t, i + 1);
    GapOfState(c, t, Run(c, t, i + 1), Simulated(c, t).equity[i], i);
  }

  lemma SettledEquity(c: Config, t: Tape, s: State)
    requires c.Valid() && t.Valid()
    ensures Settled(c, t, s).equity == s.equity
  {
  }

  // ----- solvency -----

  /** Every sale in the log keeps a non-negative part of its amount. */
  predicate SalesKeepMoney(c: Config, t: Tape, log: seq<LogEntry>) {
    && BarsWithin(t, log)
    && forall i :: 0 <= i < |log| && !IsEntry(log[i].action) ==> RateOf(c, t, log[i]) <= 1.0
  }

  predicate Solvent(s: State) {
    s.cash >= 0.0 && forall i :: 0 <= i < |s.log| ==> s.log[i].cash >= 0.0
  }

  lemma SaleAdds(c: Config, qty: int, price: real, volume: real)
    requires qty >= 0 && price >= 0.0 && c.execution.CostRate(qty, price, volume) <= 1.0
    ensures c.execution.SellProceeds(qty, price, volume) >= 0.0
  {
    MulMonotone(0.0, qty as real, price);
    MulMonotone(0.0, 1.0 - c.execution.CostRate(qty, price, volume), qty as real * price);
    c.execution.FillCosts(qty, price, volume);
  }

  lemma CloseLongSolvent(c: Config, t: Tape, s: State, n: nat, action: Action, price: real)
    requires t.Valid() && n < |t.views| && Solvent(s) && s.position >= 0 && price >= 0.0
    requires c.execution.CostRate(s.position, price, t.views[n].avgVol) <= 1.0
    ensures Solvent(CloseLong(c, t.views[n], s, action, price))
  {
    SaleAdds(c, s.position, price, t.views[n].avgVol);
  }

  lemma BoughtSolvent(c: Config, v: BarView, s: State, qty: int, price: real)
    requires Solvent(s) && c.execution.BuyCost(qty, price, v.avgVol) <= s.cash
    ensures Solvent(Bought(c, v, s, qty, price))
  {
  }

  lemma EntryQtyPayable(c: Config, v: BarView, cash: real, price: real)
    requires c.Valid() && c.execution.NonNegativeCosts() && c.execution.MonotoneImpact()
    ensures Payable(EntryQty(c, v, cash, price), cash, price, v.avgVol, c.execution)
  {
    EntryPayable(c.sizing, c.sizeParams, v.sizeForecast, cash, price, c.execution, v.pred, v.atr, v.avgVol);
  }

  lemma OpenLongSolvent(c: Config, v: BarView, s: State, price: real)
    requires c.Valid() && c.execution.NonNegativeCosts() && c.execution.MonotoneImpact() && Solvent(s)
    ensures Solvent(OpenLong(c, v, s, price))
  {
    var qty := EntryQty(c, v, s.cash, price);
    EntryQtyPayable(c, v, s.cash, price);
    if qty > 0 { BoughtSolvent(c, v, s, qty, price); }
  }

  lemma TradeSolvent(c: Config, t: Tape, s: State, n: nat)
    requires c.Valid() && t.Valid() && n < |t.views| && WellKept(c, t, s, n) && Solvent(s)
    requires c.execution.NonNegativeCosts() && c.execution.MonotoneImpact() && NonNegativePrices(t) && !c.enableShort
    requires SalesKeepMoney(c, t, Trade(c, t.views[n], s).log)
    ensures Solvent(Trade(c, t.views[n], s))
  {
    var v := t.views[n];
    var price := v.fill.GetOr(v.price);
    OpenLongSolvent(c, v, s, price);
    if s.position > 0 && v.fill.Some? && v.signal == -1 {
      var r := CloseLong(c, v, s, Sell, price);
      assert RateOf(c, t, r.log[|s.log|]) <= 1.0;
      CloseLongSolvent(c, t, s, n, Sell, price);
    }
  }

  lemma StepSolvent(c: Config, t: Tape, s: State, n: nat)
    requires c.Valid() && t.Valid() && n < |t.views| && WellKept(c, t, s, n) && Solvent(s)
    requires c.execution.NonNegativeCosts() && c.execution.MonotoneImpact() && NonNegativePrices(t) && !c.enableShort
    requires SalesKeepMoney(c, t, Step(c, t.views[n], t.closes[n], s).log)
    ensures Solvent(Step(c, t.views[n], t.closes[n], s))
  {
    var v, close := t.views[n], t.closes[n];
    var s0 := s.(pendingExit := None);
    var due := ExitDue(s.position, s.positionPrice, s.positionStop, c.takeProfitPct, close);
    var r := Step(c, v, close, s);
    if s.pendingExit.Some? && s.position > 0 {
      assert RateOf(c, t, r.log[|s.log|]) <= 1.0;
      CloseLongSolvent(c, t, s0, n, s.pendingExit.value, v.price);
    } else if c.executionLag == 0 && due.Some? {
      assert RateOf(c, t, r.log[|s.log|]) <= 1.0;
      CloseLongSolvent(c, t, s0, n, due.value, close);
    } else {
      TradeSolvent(c, t, s0, n);
    }
  }

  lemma {:induction false} RunSolvent(c: Config, t: Tape, n: nat)
    requires c.Valid() && t.Valid() && n <= |t.views| && c.initialCash >= 0.0
    requires c.execution.NonNegativeCosts() && c.execution.MonotoneImpact() && NonNegativePrices(t) && !c.enableShort
    requires SalesKeepMoney(c, t, Run(c, t, n).log)
    ensures Solvent(Run(c, t, n))
  {
    hide Step;
    if n > 0 {
      SalesBefore(c, t, n - 1);
      RunSolvent(c, t, n - 1);
      SolventAfter(c, t, n - 1);
    }
  }

  lemma SolventAfter(c: Config, t: Tape, n: nat)
    requires c.Valid() && t.Valid() && n < |t.views| && Solvent(Run(c, t, n))
    requires c.execution.NonNegativeCosts() && c.execution.MonotoneImpact() && NonNegativePrices(t) && !c.enableShort
    requires SalesKeepMoney(c, t, Run(c, t, n + 1).log)
    ensures Solvent(Run(c, t, n + 1))
  {
    RunKeeps(c, t, n);
    StepSolvent(c, t, Run(c, t, n), n);
  }

  lemma SalesBefore(c: Config, t: Tape, n: nat)
    requires c.Valid() && t.Valid() && n < |t.views| && SalesKeepMoney(c, t, Run(c, t, n + 1).log)
    ensures SalesKeepMoney(c, t, Run(c, t, n).log)
  {
    LogGrowsAfter(c, t, n);
    SalesOfPrefix(c, t, Run(c, t, n).log, Run(c, t, n + 1).log);
  }

  lemma SalesOfPrefix(c: Config, t: Tape, shorter: seq<LogEntry>, longer: seq<LogEntry>)
    requires shorter <= longer && SalesKeepMoney(c, t, longer)
    ensures SalesKeepMoney(c, t, shorter)
  {
  }

  /** Solvency of a long-only run: when no cost rewards, the impact does not fall with the size, and
      no sale costs more than it brings in, cash is never negative, at any log entry or after any
      bar. The sizing modes need no help from the caller for this. */
  lemma LongOnlyNeverOverdrawn(c: Config, t: Tape, n: nat)
    requires c.Valid() && t.Valid() && n <= |t.views| && c.initialCash >= 0.0
    requires c.execution.NonNegativeCosts() && c.execution.MonotoneImpact() && NonNegativePrices(t) && !c.enableShort
    requires SalesKeepMoney(c, t, Simulated(c, t).log)
    ensures Run(c, t, n).cash >= 0.0 && Solvent(Simulated(c, t))
  {
    var n' := |t.views|;
    SettledGrows(c, t, Run(c, t, n'));
    SalesOfPrefix(c, t, Run(c, t, n').log, Simulated(c, t).log);
    LogPrefix(c, t, n, n');
    SalesOfPrefix(c, t, Run(c, t, n).log, Run(c, t, n').log);
    RunSolvent(c, t, n);
    RunSolvent(c, t, n');
    RunKeeps(c, t, n');
    SettledSolvent(c, t, Run(c, t, n'));
  }

  lemma SettledSolvent(c: Config, t: Tape, s: State)
    requires c.Valid() && t.Valid() && WellKept(c, t, s, |t.views|) && Solvent(s) && !c.enableShort
              && NonNegativePrices(t)
    requires SalesKeepMoney(c, t, Settled(c, t, s).log)
    ensures Solvent(Settled(c, t, s))
  {
    if s.position > 0 {
      var m := |t.views| - 1;
      assert RateOf(c, t, Settled(c, t, s).log[|s.log|]) <= 1.0;
      CloseLongSolvent(c, t, s, m, FinalSell, t.closes[m]);
    }
  }
}
