/** What the trade log and the accounts keep over a whole run: entries and exits alternate with
    equal quantities, long and short are never open together, every bar has one equity record,
    and the gap between gross and net cash is the exact cost of the fills in the log. */
module BacktestLedger {
  import opened Arithmetic
  import opened Backtester
  import opened BacktestInputs
  import opened Execution
  import opened PositionSizing
  import opened Wrappers

  predicate IsEntry(a: Action) {
    a == Buy || a == Short
  }

  /** Which exits close which entry. */
  predicate Closes(entry: Action, exit: Action) {
    if entry == Buy then exit == Sell || exit == StopLoss || exit == TakeProfit || exit == FinalSell
    else entry == Short && (exit == ShortCover || exit == FinalShortCover)
  }

  /** An entry at an even position; at an odd one the exit that closes the whole entry before it. */
  predicate FitsAt(log: seq<LogEntry>, i: nat)
    requires i < |log|
  {
    if i % 2 == 0 then IsEntry(log[i].action)
    else Closes(log[i - 1].action, log[i].action) && log[i].qty == log[i - 1].qty
  }

  /** Entry, exit, entry, exit, ... */
  predicate Alternates(log: seq<LogEntry>) {
    forall i :: 0 <= i < |log| ==> FitsAt(log, i)
  }

  predicate WholeLots(c: Config, log: seq<LogEntry>) {
    forall i :: 0 <= i < |log| ==> log[i].qty > 0 && c.execution.IsLotMultiple(log[i].qty)
  }

  /** At most one entry a bar, in the order of the bars. */
  predicate OneEntryPerBar(log: seq<LogEntry>, n: nat) {
    && (forall i, j :: 0 <= i < j < |log| ==> log[i].bar < log[j].bar)
    && (forall i :: 0 <= i < |log| ==> log[i].bar < n)
  }

  predicate OneRecordPerBar(equity: seq<EquityRecord>, n: nat) {
    |equity| == n && forall i :: 0 <= i < n ==> equity[i].bar == i
  }

  /** The positions are exactly what the last log entry leaves open. */
  predicate OpenMatchesLog(c: Config, t: Tape, s: State)
    requires c.Valid() && t.Valid()
  {
    if |s.log| % 2 == 0 then s.position == 0 && s.shortPosition == 0
    else
      var e := s.log[|s.log| - 1];
      && e.bar < |t.views| && IsEntry(e.action)
      && (e.action == Buy ==>
            s.position == e.qty && s.shortPosition == 0 && s.positionPrice == e.price
                && s.positionStop == StopFor(c, t, e.bar))
      && (e.action == Short ==>
            c.enableShort && s.position == 0 && s.shortPosition == e.qty && s.shortPrice == e.price
            && s.shortEntryVol == t.views[e.bar].avgVol)
  }

  /** The stop of a position opened at bar b. */
  function StopFor(c: Config, t: Tape, b: nat): Option<real>
    requires c.Valid() && t.Valid() && b < |t.views|
  {
    StopLossPct(c.stopParams, t.views[b].stopForecast, c.stopLossPct)
  }

  predicate WellKept(c: Config, t: Tape, s: State, n: nat)
    requires c.Valid() && t.Valid()
  {
    && n <= |t.views|
    && Alternates(s.log) && WholeLots(c, s.log) && OneEntryPerBar(s.log, n)
    && OneRecordPerBar(s.equity, n) && OpenMatchesLog(c, t, s)
    && (s.pendingExit.Some? ==> s.pendingExit == Some(StopLoss) || s.pendingExit == Some(TakeProfit))
  }

  // ----- one bar -----

  /** An entry quantity is a number of whole lots, whatever the sizing mode and the scale. */
  lemma EntryQtyInLots(c: Config, v: BarView, cash: real, price: real)
    requires c.Valid()
    ensures EntryQty(c, v, cash, price) >= 0
    ensures c.execution.IsLotMultiple(EntryQty(c, v, cash, price))
  {
    LotsOfSizing(c.sizing, cash, price, c.execution, v.pred, v.atr, v.avgVol);
    LotsOfScale(c.sizeParams, v.sizeForecast,
                PositionQty(c.sizing, cash, price, c.execution, v.pred, v.atr, v.avgVol), cash, price, v.avgVol,
                    c.execution);
  }

  lemma LotsOfCap(requested: int, cash: real, price: real, volume: real, m: ExecutionModel)
    requires m.Usable()
    ensures var q := CapToCash(m.RoundToLot(requested), cash, price, volume, m); q >= 0 && m.IsLotMultiple(q)
  {
  }

  lemma LotsOfSizing(z: SizingConfig, cash: real, price: real, m: ExecutionModel, pred: Option<real>,
                     atr: Option<real>, volume: real)
    requires z.Valid() && m.Usable()
    ensures var q := PositionQty(z, cash, price, m, pred, atr, volume); q >= 0 && m.IsLotMultiple(q)
  {
    if m.UnitBuyCost(price) > 0.0 && cash > 0.0 {
      LotsOfCap(RequestedQty(z, cash, m.UnitBuyCost(price), pred, atr), cash, price, volume, m);
    }
  }

  lemma LotsOfScale(p: Option<VolatilityParams>, forecast: Option<real>, qty: int, cash: real, price: real,
                    volume: real, m: ExecutionModel)
    requires m.Usable() && qty >= 0 && m.IsLotMultiple(qty)
    ensures var q := ScaleQty(p, forecast, qty, cash, price, volume, m); q >= 0 && m.IsLotMultiple(q)
  {
    if p.Some? && qty > 0 { LotsOfCap(ScaledQty(p.value, forecast, qty), cash, price, volume, m); }
  }

  lemma EntryExtends(c: Config, log: seq<LogEntry>, e: LogEntry)
    requires Alternates(log) && WholeLots(c, log) && |log| % 2 == 0
    requires IsEntry(e.action) && e.qty > 0 && c.execution.IsLotMultiple(e.qty)
    ensures Alternates(log + [e]) && WholeLots(c, log + [e])
  {
    AppendFits(log, e);
  }

  lemma NextBar(log: seq<LogEntry>, e: LogEntry, n: nat)
    requires OneEntryPerBar(log, n) && e.bar == n
    ensures OneEntryPerBar(log + [e], n + 1)
  {
  }

  lemma AppendFits(log: seq<LogEntry>, e: LogEntry)
    requires Alternates(log) && FitsAt(log + [e], |log|)
    ensures Alternates(log + [e])
  {
    forall i | 0 <= i < |log|
      ensures FitsAt(log + [e], i)
    {
      assert FitsAt(log, i);
    }
  }

  lemma ExitExtends(c: Config, log: seq<LogEntry>, e: LogEntry)
    requires Alternates(log) && WholeLots(c, log) && |log| % 2 == 1
    requires Closes(log[|log| - 1].action, e.action) && e.qty == log[|log| - 1].qty
    ensures Alternates(log + [e]) && WholeLots(c, log + [e])
  {
    AppendFits(log, e);
  }

  /** The state within bar n, once the bar has traded. */
  predicate TradedWell(c: Config, t: Tape, s: State, r: State, n: nat)
    requires c.Valid() && t.Valid()
  {
    && Alternates(r.log) && WholeLots(c, r.log) && OneEntryPerBar(r.log, n + 1)
    && OpenMatchesLog(c, t, r) && r.equity == s.equity && r.pendingExit == s.pendingExit
  }

  lemma CloseLongKeeps(c: Config, t: Tape, s: State, n: nat, action: Action, price: real)
    requires c.Valid() && t.Valid() && n < |t.views| && WellKept(c, t, s, n)
    requires s.position > 0 && Closes(Buy, action)
    ensures TradedWell(c, t, s, CloseLong(c, t.views[n], s, action, price), n)
  {
    hide ExecutionModel.BuyCost, ExecutionModel.SellProceeds, ExecutionModel.IsLotMultiple;
    var r := CloseLong(c, t.views[n], s, action, price);
    ExitExtends(c, s.log, r.log[|s.log|]);
    NextBar(s.log, r.log[|s.log|], n);
  }

  lemma CoverShortKeeps(c: Config, t: Tape, s: State, n: nat, action: Action, price: real)
    requires c.Valid() && t.Valid() && n < |t.views| && WellKept(c, t, s, n)
    requires s.shortPosition > 0 && Closes(Short, action)
    ensures TradedWell(c, t, s, CoverShort(c, t.views[n], s, action, price), n)
  {
    hide ExecutionModel.BuyCost, ExecutionModel.SellProceeds, ExecutionModel.IsLotMultiple;
    var r := CoverShort(c, t.views[n], s, action, price);
    ExitExtends(c, s.log, r.log[|s.log|]);
  }

  lemma OpenLongKeeps(c: Config, t: Tape, s: State, n: nat, price: real)
    requires c.Valid() && t.Valid() && n < |t.views| && WellKept(c, t, s, n)
    requires s.position == 0 && s.shortPosition == 0
    ensures TradedWell(c, t, s, OpenLong(c, t.views[n], s, price), n)
  {
    hide ExecutionModel.BuyCost, ExecutionModel.IsLotMultiple, EntryQty, StopLossPct;
    var r := OpenLong(c, t.views[n], s, price);
    EntryQtyInLots(c, t.views[n], s.cash, price);
    if r != s { EntryExtends(c, s.log, r.log[|s.log|]); }
  }

  lemma OpenShortKeeps(c: Config, t: Tape, s: State, n: nat, price: real)
    requires c.Valid() && t.Valid() && n < |t.views| && WellKept(c, t, s, n)
    requires s.position == 0 && s.shortPosition == 0 && c.enableShort
    ensures TradedWell(c, t, s, OpenShort(c, t.views[n], s, price), n)
  {
    hide ExecutionModel.BuyCost, ExecutionModel.SellProceeds, ExecutionModel.IsLotMultiple;
    var r := OpenShort(c, t.views[n], s, price);
    EntryQtyInLots(c, t.views[n], s.cash, price);
    if r != s { EntryExtends(c, s.log, r.log[|s.log|]); }
  }

  lemma TradeKeeps(c: Config, t: Tape, s: State, n: nat)
    requires c.Valid() && t.Valid() && n < |t.views| && WellKept(c, t, s, n)
    ensures TradedWell(c, t, s, Trade(c, t.views[n], s), n)
  {
    var v := t.views[n];
    var price := v.fill.GetOr(v.price);
    if s.shortPosition > 0 { CoverShortKeeps(c, t, s, n, ShortCover, price); }
    if s.position > 0 { CloseLongKeeps(c, t, s, n, Sell, price); }
    if s.position == 0 && s.shortPosition == 0 {
      OpenLongKeeps(c, t, s, n, price);
      if c.enableShort { OpenShortKeeps(c, t, s, n, price); }
    }
  }

  lemma StepKeeps(c: Config, t: Tape, s: State, n: nat)
    requires c.Valid() && t.Valid() && n < |t.views| && WellKept(c, t, s, n)
    ensures WellKept(c, t, Step(c, t.views[n], t.closes[n], s), n + 1)
  {
    var v, close := t.views[n], t.closes[n];
    var s0 := s.(pendingExit := None);
    var due := ExitDue(s.position, s.positionPrice, s.positionStop, c.takeProfitPct, close);
    if s.pendingExit.Some? && s.position > 0 {
      CloseLongKeeps(c, t, s0, n, s.pendingExit.value, v.price);
      RecordKeeps(c, t, s0, CloseLong(c, v, s0, s.pendingExit.value, v.price), n);
    } else if c.executionLag == 0 && due.Some? {
      CloseLongKeeps(c, t, s0, n, due.value, close);
      RecordKeeps(c, t, s0, CloseLong(c, v, s0, due.value, close), n);
    } else {
      TradeKeeps(c, t, s0, n);
      JudgedKeeps(c, t, s0, Trade(c, v, s0), n);
    }
  }

  lemma RecordKeeps(c: Config, t: Tape, s: State, r: State, n: nat)
    requires c.Valid() && t.Valid() && n < |t.views| && OneRecordPerBar(s.equity, n)
    requires TradedWell(c, t, s, r, n)
    requires r.pendingExit.Some? ==> r.pendingExit == Some(StopLoss) || r.pendingExit == Some(TakeProfit)
    ensures WellKept(c, t, Recorded(c, t.views[n], t.closes[n], r), n + 1)
  {
  }

  lemma JudgedKeeps(c: Config, t: Tape, s: State, r: State, n: nat)
    requires c.Valid() && t.Valid() && n < |t.views| && OneRecordPerBar(s.equity, n)
    requires TradedWell(c, t, s, r, n) && s.pendingExit.None?
    ensures WellKept(c, t, Recorded(c, t.views[n], t.closes[n], Judged(c, t.closes[n], r)), n + 1)
  {
    var judged := Judged(c, t.closes[n], r);
    RecordKeeps(c, t, s.(pendingExit := judged.pendingExit), judged, n);
  }

  /** Every run keeps its log and positions in order, whatever the data, the signals and the settings. */
  lemma {:induction false} RunKeeps(c: Config, t: Tape, n: nat)
    requires c.Valid() && t.Valid() && n <= |t.views|
    ensures WellKept(c, t, Run(c, t, n), n)
  {
    hide Step;
    if n > 0 {
      RunKeeps(c, t, n - 1);
      StepKeeps(c, t, Run(c, t, n - 1), n - 1);
    }
  }

  /** A run never holds a long and a short position at once. */
  lemma NeverLongAndShort(c: Config, t: Tape, n: nat)
    requires c.Valid() && t.Valid() && n <= |t.views|
    ensures var s := Run(c, t, n); s.position >= 0 && s.shortPosition >= 0 && (s.position == 0 || s.shortPosition == 0)
  {
    hide Run;
    RunKeeps(c, t, n);
  }

  /** The whole simulation: the log alternates entries with full exits and ends flat, all
      quantities are whole lots, and there is exactly one equity record a bar. */
  lemma SimulationEndsFlat(c: Config, t: Tape)
    requires c.Valid() && t.Valid()
    ensures
      var r := Simulated(c, t);
      && |r.log| % 2 == 0 && r.position == 0 && r.shortPosition == 0
      && Alternates(r.log) && WholeLots(c, r.log) && OneRecordPerBar(r.equity, |t.views|)
  {
    hide Run, Step, ExecutionModel.SellProceeds, ExecutionModel.BuyCost;
    RunKeeps(c, t, |t.views|);
    var s, r := Run(c, t, |t.views|), Simulated(c, t);
    if |s.log| % 2 == 1 { ExitExtends(c, s.log, r.log[|s.log|]); }
  }

  /** x is the one entry that the bar's signal adds, and what it does to the positions: an entry opens its
      whole quantity from nothing, an exit closes the whole position, and the other side stays. */
  predicate TradedBy(c: Config, v: BarView, s: State, r: State, x: LogEntry) {
    && r.log == s.log + [x] && x.bar == v.bar && v.fill == Some(x.price) && x.qty > 0
    && r.equity == s.equity && r.pendingExit == s.pendingExit && x.cash == r.cash && x.cashGross == r.cashGross
    && match x.action
       case Buy => v.signal == 1 && s.position == 0 && r.position == x.qty && r.positionPrice == x.price
           && r.shortPosition == s.shortPosition
       case Sell => v.signal == -1 && s.position == x.qty && r.position == 0 && r.shortPosition == s.shortPosition
       case Short => v.signal == -1 && c.enableShort && s.shortPosition == 0 && r.shortPosition == x.qty
           && r.shortPrice == x.price
                     && r.position == 0 && s.position == 0 && r.cash == s.cash
       case ShortCover => v.signal == 1 && c.enableShort && s.shortPosition == x.qty && r.shortPosition == 0
           && r.position == s.position
       case _ => false
  }

  /** A bar's signal does nothing, or adds one entry; a filled opposite signal always closes what is open. */
  lemma SignalTradesOnce(c: Config, v: BarView, s: State)
    requires c.Valid() && s.position >= 0 && s.shortPosition >= 0
    ensures Trade(c, v, s) == s
              || (|Trade(c, v, s).log| == |s.log| + 1 && TradedBy(c, v, s, Trade(c, v, s), Trade(c, v, s).log[|s.log|]))
    ensures v.fill.Some? && v.signal == -1 && s.position > 0 ==> Trade(c, v, s).position == 0
    ensures v.fill.Some? && v.signal == 1 && c.enableShort && s.shortPosition > 0 ==> Trade(c, v, s).shortPosition == 0
  {
  }

  /** The end of the data leaves nothing open, and closes what was open by one entry for its whole quantity
      at the last close. */
  lemma SettledOnce(c: Config, t: Tape, s: State)
    requires c.Valid() && t.Valid() && WellKept(c, t, s, |t.views|)
    ensures
      var r := Settled(c, t, s);
      && r.position == 0 && r.shortPosition == 0 && r.equity == s.equity
      && if s.position == 0 && s.shortPosition == 0 then r == s
         else
           && |r.log| == |s.log| + 1 && r.log[..|s.log|] == s.log && |s.log| > 0 && |t.views| > 0
           && var e, x := s.log[|s.log| - 1], r.log[|s.log|];
              && x.bar == |t.views| - 1 && x.price == t.closes[x.bar] && x.qty == e.qty
              && x.action == (if e.action == Buy then FinalSell else FinalShortCover)
  {
  }
}
