/** Exit discipline, read off the log and the prices alone: a long position is left by a stop or a
    target exactly when a close breached it, at the first such close, and the stop goes first. */
module BacktestExitDiscipline {
  import opened Arithmetic
  import opened Backtester
  import opened BacktestInputs
  import opened BacktestLedger
  import opened Execution
  import opened Wrappers

  /** The close of bar b is at or below the stop line of the position bought by e. */
  predicate StopBreached(c: Config, t: Tape, e: LogEntry, b: nat)
    requires c.Valid() && t.Valid() && e.bar < |t.views| && b < |t.views|
  {
    var stop := StopFor(c, t, e.bar);
    e.price > 0.0 && stop.Some? && t.closes[b] <= e.price * (1.0 - stop.value)
  }

  /** The close of bar b is at or above the target line of the position bought by e. */
  predicate TargetBreached(c: Config, t: Tape, e: LogEntry, b: nat)
    requires t.Valid() && b < |t.views|
  {
    e.price > 0.0 && c.takeProfitPct.Some? && t.closes[b] >= e.price * (1.0 + c.takeProfitPct.value)
  }

  function Due(c: Config, t: Tape, e: LogEntry, b: nat): Option<Action>
    requires c.Valid() && t.Valid() && e.bar < |t.views| && b < |t.views|
  {
    if StopBreached(c, t, e, b) then Some(StopLoss)
    else if TargetBreached(c, t, e, b) then Some(TakeProfit)
    else None
  }

  /** The relative change of the source and the price line are the same test. */
  lemma ChangeIsLine(close: real, price: real, x: real)
    requires price > 0.0
    ensures (close - price) / price <= x <==> close <= price * (1.0 + x)
    ensures (close - price) / price >= x <==> close >= price * (1.0 + x)
  {
    var q := (close - price) / price;
    assert q * price == close - price;
    MulOrder(q, x, price);
    MulOrder(x, q, price);
    assert price * (1.0 + x) == price + x * price;
  }

  /** The exit that a close calls for, in prices: of a long position the stop exactly at or below its
      stop line, else the target exactly at or above its target line. */
  lemma ExitDueIsLine(position: int, entryPrice: real, stop: Option<real>, target: Option<real>, close: real)
    ensures
      var due := ExitDue(position, entryPrice, stop, target, close);
      var held := position > 0 && entryPrice > 0.0;
      && (due == Some(StopLoss) <==> held && stop.Some? && close <= entryPrice * (1.0 - stop.value))
      && (due == Some(TakeProfit)
          <==> held && target.Some? && close >= entryPrice * (1.0 + target.value) && due != Some(StopLoss))
      && (due.Some? ==> due == Some(StopLoss) || due == Some(TakeProfit))
  {
    if entryPrice > 0.0 {
      if stop.Some? { ChangeIsLine(close, entryPrice, -stop.value); }
      if target.Some? { ChangeIsLine(close, entryPrice, target.value); }
    }
  }

  lemma DueIsExitDue(c: Config, t: Tape, e: LogEntry, b: nat)
    requires c.Valid() && t.Valid() && e.bar < |t.views| && b < |t.views| && e.qty > 0
    ensures Due(c, t, e, b) == ExitDue(e.qty, e.price, StopFor(c, t, e.bar), c.takeProfitPct, t.closes[b])
  {
    ExitDueIsLine(e.qty, e.price, StopFor(c, t, e.bar), c.takeProfitPct, t.closes[b]);
  }

  /** No close in from..to breaches a line of the position bought by e. */
  predicate Quiet(c: Config, t: Tape, e: LogEntry, from: int, to: int)
    requires c.Valid() && t.Valid() && e.bar < |t.views|
  {
    forall b: nat :: from <= b < to && b < |t.views| ==> Due(c, t, e, b) == None
  }

  /** The first close that is looked at: with a lag the entry bar's own, which follows the entry at
      its opening; without a lag the next one. */
  function FirstClose(c: Config, e: LogEntry): nat {
    if c.executionLag > 0 then e.bar else e.bar + 1
  }

  /** How the position bought by e was left by the exit x. */
  predicate LeftInOrder(c: Config, t: Tape, e: LogEntry, x: LogEntry)
    requires c.Valid() && t.Valid() && e.bar < |t.views|
  {
    && x.bar < |t.views|
    && if x.action == FinalSell then
         && x.bar == |t.views| - 1 && x.price == t.closes[x.bar]
         && Quiet(c, t, e, FirstClose(c, e), if c.executionLag > 0 then x.bar else x.bar + 1)
       else
         var decided := if c.executionLag > 0 then x.bar - 1 else x.bar;
         && 0 <= FirstClose(c, e) <= decided
         && Quiet(c, t, e, FirstClose(c, e), decided)
         && match Due(c, t, e, decided)
            case Some(a) => x.action == a
                && x.price == (if c.executionLag > 0 then t.views[x.bar].price else t.closes[x.bar])
            case None => x.action == Sell
  }

  predicate PairInOrder(c: Config, t: Tape, log: seq<LogEntry>, k: nat)
    requires c.Valid() && t.Valid() && k + 1 < |log|
  {
    log[k].action == Buy ==> log[k].bar < |t.views| && LeftInOrder(c, t, log[k], log[k + 1])
  }

  predicate AllInOrder(c: Config, t: Tape, log: seq<LogEntry>)
    requires c.Valid() && t.Valid()
  {
    forall k: nat :: k + 1 < |log| ==> PairInOrder(c, t, log, k)
  }

  /** After n bars: every closed position was left in order, and an open one has only seen quiet
      closes, the last of which decides the pending exit. */
  predicate InOrder(c: Config, t: Tape, s: State, n: nat)
    requires c.Valid() && t.Valid() && WellKept(c, t, s, n)
  {
    && AllInOrder(c, t, s.log)
    && (s.position > 0 ==>
          var e := s.log[|s.log| - 1];
          && Quiet(c, t, e, FirstClose(c, e), if c.executionLag > 0 then n - 1 else n)
          && s.pendingExit == if c.executionLag > 0 then Due(c, t, e, n - 1) else None)
  }

  lemma AppendInOrder(c: Config, t: Tape, log: seq<LogEntry>, x: LogEntry)
    requires c.Valid() && t.Valid() && AllInOrder(c, t, log)
    requires log != [] && log[|log| - 1].action == Buy ==>
               log[|log| - 1].bar < |t.views| && LeftInOrder(c, t, log[|log| - 1], x)
    ensures AllInOrder(c, t, log + [x])
  {
    forall k: nat | k + 1 < |log + [x]|
      ensures PairInOrder(c, t, log + [x], k)
    {
      if k + 1 < |log| { assert PairInOrder(c, t, log, k); }
    }
  }

  /** r is s after at most one more log entry, of bar n; from a long position only the full sale. */
  predicate OneTrade(s: State, r: State, n: nat) {
    if r.log == s.log then r.position == s.position
    else
      && |r.log| == |s.log| + 1 && r.log == s.log + [r.log[|s.log|]] && r.log[|s.log|].bar == n
      && (s.position > 0 && s.shortPosition == 0 ==> r.log[|s.log|].action == Sell && r.position == 0)
  }

  lemma TradeIsOneTrade(c: Config, v: BarView, s: State)
    requires c.Valid() && s.position >= 0
    ensures OneTrade(s, Trade(c, v, s), v.bar)
  {
  }

  lemma HeldIsLastBuy(c: Config, t: Tape, s: State, n: nat)
    requires c.Valid() && t.Valid() && WellKept(c, t, s, n)
    ensures s.position > 0 <==> s.log != [] && s.log[|s.log| - 1].action == Buy
  {
    if s.log != [] { assert FitsAt(s.log, |s.log| - 1); }
  }

  /** What trading at bar n does to the open long position. */
  lemma TradeInOrder(c: Config, t: Tape, s: State, r: State, n: nat)
    requires c.Valid() && t.Valid() && n < |t.views| && WellKept(c, t, s, n) && InOrder(c, t, s, n)
    requires s.position > 0 ==>
               if c.executionLag > 0 then s.pendingExit == None
               else Due(c, t, s.log[|s.log| - 1], n) == None
    requires OneTrade(s, r, n)
    ensures AllInOrder(c, t, r.log)
    ensures r.position > 0 && r.log == s.log ==>
              Quiet(c, t, r.log[|r.log| - 1], FirstClose(c, r.log[|r.log| - 1]),
                    if c.executionLag > 0 then n else n + 1)
  {
    HeldIsLastBuy(c, t, s, n);
    if r.log != s.log {
      if s.position > 0 { assert LeftInOrder(c, t, s.log[|s.log| - 1], r.log[|s.log|]); }
      AppendInOrder(c, t, s.log, r.log[|s.log|]);
    }
  }

  lemma ExitInOrder(c: Config, t: Tape, s: State, n: nat, action: Action, price: real)
    requires c.Valid() && t.Valid() && n < |t.views| && WellKept(c, t, s, n) && InOrder(c, t, s, n) && s.position > 0
    requires var e := s.log[|s.log| - 1];
             if c.executionLag > 0 then s.pendingExit == Some(action) && price == t.views[n].price
             else Due(c, t, e, n) == Some(action) && price == t.closes[n]
    ensures AllInOrder(c, t, CloseLong(c, t.views[n], s.(pendingExit := None), action, price).log)
  {
    var r := CloseLong(c, t.views[n], s.(pendingExit := None), action, price);
    AppendInOrder(c, t, s.log, r.log[|s.log|]);
  }

  /** The exit that the bar's close calls for before its signal is looked at; with a lag it waits. */
  function DueNow(c: Config, close: real, s: State): Option<Action> {
    if c.executionLag > 0 then None else ExitDue(s.position, s.positionPrice, s.positionStop, c.takeProfitPct, close)
  }

  lemma StepInOrder(c: Config, t: Tape, s: State, n: nat)
    requires c.Valid() && t.Valid() && n < |t.views| && WellKept(c, t, s, n) && InOrder(c, t, s, n)
    ensures WellKept(c, t, Step(c, t.views[n], t.closes[n], s), n + 1)
    ensures InOrder(c, t, Step(c, t.views[n], t.closes[n], s), n + 1)
  {
    StepKeeps(c, t, s, n);
    if s.position > 0 { DueIsExitDue(c, t, s.log[|s.log| - 1], n); }
    if s.pendingExit.Some? && s.position > 0 {
      ExitInOrder(c, t, s, n, s.pendingExit.value, t.views[n].price);
    } else if DueNow(c, t.closes[n], s).Some? {
      ExitInOrder(c, t, s, n, DueNow(c, t.closes[n], s).value, t.closes[n]);
    } else {
      TradedStepInOrder(c, t, s, n);
    }
  }

  lemma TradedStepInOrder(c: Config, t: Tape, s: State, n: nat)
    requires c.Valid() && t.Valid() && n < |t.views| && WellKept(c, t, s, n) && InOrder(c, t, s, n)
    requires (s.pendingExit.None? || s.position <= 0) && DueNow(c, t.closes[n], s).None?
    requires WellKept(c, t, Step(c, t.views[n], t.closes[n], s), n + 1)
    ensures InOrder(c, t, Step(c, t.views[n], t.closes[n], s), n + 1)
  {
    hide Marked, EntryQty, ExecutionModel.BuyCost, ExecutionModel.SellProceeds, ExecutionModel.IsLotMultiple;
    var v, r := t.views[n], Step(c, t.views[n], t.closes[n], s);
    if s.position > 0 { DueIsExitDue(c, t, s.log[|s.log| - 1], n); }
    TradeIsOneTrade(c, v, s.(pendingExit := None));
    TradeInOrder(c, t, s, Trade(c, v, s.(pendingExit := None)), n);
    if r.position > 0 { DueIsExitDue(c, t, r.log[|r.log| - 1], n); }
  }

  lemma {:induction false} RunInOrder(c: Config, t: Tape, n: nat)
    requires c.Valid() && t.Valid() && n <= |t.views|
    ensures WellKept(c, t, Run(c, t, n), n)
    ensures InOrder(c, t, Run(c, t, n), n)
  {
    hide Step;
    if n > 0 {
      RunInOrder(c, t, n - 1);
      StepInOrder(c, t, Run(c, t, n - 1), n - 1);
    }
  }

  /** Exit discipline of a whole simulation, for every bought position and whatever the signals did:
      no close before the deciding one breached a line; if the deciding close breached the stop the
      exit is a stop_loss, if only the target a take_profit, both in full, with a lag at the next
      bar's execution price; if it breached neither, the exit is a signalled sale. */
  lemma ExitDiscipline(c: Config, t: Tape)
    requires c.Valid() && t.Valid()
    ensures AllInOrder(c, t, Simulated(c, t).log)
  {
    hide Run;
    var s := Run(c, t, |t.views|);
    RunInOrder(c, t, |t.views|);
    if |s.log| % 2 == 1 { AppendInOrder(c, t, s.log, Simulated(c, t).log[|s.log|]); }
  }

  /** s, after bar b, holds a long position; if the close of b breached its stop or target, then r, one
      bar later, is s after one log entry: the full exit at that bar's opening. */
  predicate LeftIfBreached(c: Config, t: Tape, s: State, r: State, b: nat)
    requires c.Valid() && t.Valid() && b + 1 < |t.views|
  {
    && |s.log| > 0 && s.log[|s.log| - 1].action == Buy && s.log[|s.log| - 1].bar < |t.views|
    && var due := Due(c, t, s.log[|s.log| - 1], b);
       due.Some? ==>
         && |r.log| == |s.log| + 1 && r.log[..|s.log|] == s.log && r.position == 0 && r.shortPosition == 0
         && var x := r.log[|s.log|];
            x.bar == b + 1 && x.action == due.value && x.qty == s.position && x.price == t.views[b + 1].price
  }

  lemma HeldLeftIfBreached(c: Config, t: Tape, b: nat, s: State)
    requires c.Valid() && t.Valid() && c.executionLag > 0 && b + 1 < |t.views|
    requires WellKept(c, t, s, b + 1) && InOrder(c, t, s, b + 1) && s.position > 0
    ensures LeftIfBreached(c, t, s, Step(c, t.views[b + 1], t.closes[b + 1], s), b)
  {
    PendingStep(c, t.views[b + 1], t.closes[b + 1], s);
  }

  /** With a lag, a breach at the close of a bar that is not the last makes the next bar do exactly
      one thing: sell the whole position at its execution price. Its signal is not looked at. */
  lemma BreachExitsNextBar(c: Config, t: Tape, b: nat)
    requires c.Valid() && t.Valid() && c.executionLag > 0 && b + 1 < |t.views|
    ensures Run(c, t, b + 1).position > 0 ==> LeftIfBreached(c, t, Run(c, t, b + 1), Run(c, t, b + 2), b)
  {
    RunInOrder(c, t, b + 1);
    if Run(c, t, b + 1).position > 0 { HeldLeftIfBreached(c, t, b, Run(c, t, b + 1)); }
  }

  lemma PendingStep(c: Config, v: BarView, close: real, s: State)
    requires c.Valid() && s.position > 0
    ensures
      var r := Step(c, v, close, s);
      s.pendingExit.Some? ==>
        && |r.log| == |s.log| + 1 && r.log[..|s.log|] == s.log && r.position == 0 && r.shortPosition == s.shortPosition
        && var x := r.log[|s.log|];
           x.bar == v.bar && x.action == s.pendingExit.value && x.qty == s.position && x.price == v.price
  {
  }
}
