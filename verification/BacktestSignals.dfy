/** No entry is missing: every filled signal that finds its position free, or open, is acted on, and with as
    much as the sizing gives. The converse of the cause that every log entry has. */
module BacktestSignals {
  import opened Backtester
  import opened BacktestInputs
  import opened BacktestLedger
  import opened Execution
  import opened PositionSizing
  import opened Wrappers

  /** An exit comes first on this bar: one that waits from the bar before, or without a lag one that this
      close calls for. */
  predicate ExitsFirst(c: Config, s: State, close: real) {
    s.position > 0
    && (s.pendingExit.Some?
        || (c.executionLag == 0
            && ExitDue(s.position, s.positionPrice, s.positionStop, c.takeProfitPct, close).Some?))
  }

  /** Exactly one entry is added to the log. */
  predicate Logs(before: seq<LogEntry>, after: seq<LogEntry>, bar: nat, action: Action, price: real, qty: int) {
    && |after| == |before| + 1 && after[..|before|] == before
    && after[|before|].bar == bar && after[|before|].action == action
    && after[|before|].price == price && after[|before|].qty == qty
  }

  /** What a bar's signal must do to the log. A signal whose limit is not reached does nothing. A buy covers
      an open short, else opens a long if there is none; a sell closes an open long, else opens a short if
      shorts are enabled and there is none. An entry is made whenever the sizing gives a positive
      quantity; an exit is of the whole position. */
  predicate Followed(c: Config, v: BarView, s: State, after: seq<LogEntry>)
    requires c.Valid()
  {
    if v.fill.None? then after == s.log
    else
      var p := v.fill.value;
      var qty := EntryQty(c, v, s.cash, p);
      if v.signal == 1 && c.enableShort && s.shortPosition > 0 then
        Logs(s.log, after, v.bar, ShortCover, p, s.shortPosition)
      else if v.signal == 1 && s.position == 0 && qty > 0 then Logs(s.log, after, v.bar, Buy, p, qty)
      else if v.signal == -1 && s.position > 0 then Logs(s.log, after, v.bar, Sell, p, s.position)
      else if v.signal == -1 && c.enableShort && s.position == 0 && s.shortPosition == 0 && qty > 0 then
        Logs(s.log, after, v.bar, Short, p, qty)
      else after == s.log
  }

  lemma TradeFollows(c: Config, v: BarView, s: State)
    requires c.Valid()
    ensures Followed(c, v, s, Trade(c, v, s).log)
  {
    hide EntryQty, ExecutionModel.BuyCost, ExecutionModel.SellProceeds, StopLossPct;
  }

  lemma StepTrades(c: Config, v: BarView, close: real, s: State)
    requires c.Valid() && !ExitsFirst(c, s, close)
    ensures Step(c, v, close, s).log == Trade(c, v, s.(pendingExit := None)).log
  {
    hide Trade, ExitDue, Marked;
    NoExitWithout(c, s, close);
  }

  lemma NoExitWithout(c: Config, s: State, close: real)
    ensures s.position <= 0 ==>
              ExitDue(s.position, s.positionPrice, s.positionStop, c.takeProfitPct, close).None?
  {
  }

  /** In every run, the signal of a bar on which no exit comes first is followed, and nothing else is logged. */
  lemma SignalsAreFollowed(c: Config, t: Tape, n: nat)
    requires c.Valid() && t.Valid() && n < |t.views| && !ExitsFirst(c, Run(c, t, n), t.closes[n])
    ensures Followed(c, t.views[n], Run(c, t, n), Run(c, t, n + 1).log)
  {
    hide Step, Trade, EntryQty, ExitDue;
    var s, v := Run(c, t, n), t.views[n];
    StepTrades(c, v, t.closes[n], s);
    TradeFollows(c, v, s.(pendingExit := None));
  }

  /** A signal to open a position where there is none, at a price. */
  predicate OpensAt(c: Config, s: State, v: BarView, action: Action, price: real) {
    && v.fill == Some(price) && s.position == 0
    && (action == Buy ==> v.signal == 1 && !(c.enableShort && s.shortPosition > 0))
    && (action == Short ==> v.signal == -1 && c.enableShort && s.shortPosition == 0)
  }

  lemma OpenedAs(c: Config, t: Tape, n: nat, action: Action, price: real)
    requires c.Valid() && t.Valid() && n < |t.views| && (action == Buy || action == Short)
    requires OpensAt(c, Run(c, t, n), t.views[n], action, price)
    ensures
      var s, after := Run(c, t, n), Run(c, t, n + 1).log;
      var qty := EntryQty(c, t.views[n], s.cash, price);
      if qty > 0 then Logs(s.log, after, n, action, price, qty) else after == s.log
  {
    hide EntryQty, Run, Logs, ExitDue;
    SignalsAreFollowed(c, t, n);
  }

  /** Without an overlay, a signal to open is acted on exactly as the sizing mode asks: an entry of at least q
      shares, for a positive number q of lots, is logged if and only if the mode asks for q and the cash
      pays the full cost of q. */
  lemma EntryOfAtLeast(c: Config, t: Tape, n: nat, action: Action, price: real, q: int)
    requires c.Valid() && t.Valid() && n < |t.views| && (action == Buy || action == Short)
    requires OpensAt(c, Run(c, t, n), t.views[n], action, price)
    requires c.execution.NonNegativeCosts() && c.execution.MonotoneImpact() && c.sizeParams.None?
    requires OrdinaryAtr(c.sizing) && price > 0.0 && q > 0 && c.execution.IsLotMultiple(q) && Run(c, t, n).cash > 0.0
    ensures
      var s, v, after := Run(c, t, n), t.views[n], Run(c, t, n + 1).log;
      AsksFor(c.sizing, q, s.cash, c.execution.UnitBuyCost(price), v.pred, v.atr)
      && c.execution.BuyCost(q, price, v.avgVol) <= s.cash
      <==> exists qty :: qty >= q && Logs(s.log, after, n, action, price, qty)
  {
    hide Run, AsksFor, PositionQty, ExecutionModel.BuyCost, ExecutionModel.UnitBuyCost;
    var s, v, after := Run(c, t, n), t.views[n], Run(c, t, n + 1).log;
    var qty := EntryQty(c, v, s.cash, price);
    OpenedAs(c, t, n, action, price);
    PositionQtyIff(c.sizing, s.cash, price, c.execution, v.pred, v.atr, v.avgVol, q);
    assert qty == PositionQty(c.sizing, s.cash, price, c.execution, v.pred, v.atr, v.avgVol);
  }

  /** In particular, in the full mode every signal to open is acted on as soon as the cash pays a single lot,
      with the largest number of lots that it pays. */
  lemma FullEntryIsMade(c: Config, t: Tape, n: nat, action: Action, price: real, q: int)
    requires c.Valid() && t.Valid() && n < |t.views| && (action == Buy || action == Short)
    requires OpensAt(c, Run(c, t, n), t.views[n], action, price)
    requires c.execution.NonNegativeCosts() && c.execution.MonotoneImpact() && c.sizeParams.None?
    requires SpendsAll(c.sizing, t.views[n].pred, t.views[n].atr) && price > 0.0
    requires q > 0 && c.execution.IsLotMultiple(q)
    requires c.execution.BuyCost(q, price, t.views[n].avgVol) <= Run(c, t, n).cash
    ensures
      var s, v, after := Run(c, t, n), t.views[n], Run(c, t, n + 1).log;
      && |after| == |s.log| + 1 && Logs(s.log, after, n, action, price, after[|s.log|].qty)
      && after[|s.log|].qty >= q && c.execution.BuyCost(after[|s.log|].qty, price, v.avgVol) <= s.cash
  {
    hide Run, PositionQty, ExecutionModel.BuyCost;
    var s, v := Run(c, t, n), t.views[n];
    OpenedAs(c, t, n, action, price);
    FullBuysMost(c.sizing, s.cash, price, c.execution, v.pred, v.atr, v.avgVol, q);
    PositionQtyPayable(c.sizing, s.cash, price, c.execution, v.pred, v.atr, v.avgVol);
    assert EntryQty(c, v, s.cash, price)
        == PositionQty(c.sizing, s.cash, price, c.execution, v.pred, v.atr, v.avgVol);
  }

  /** Where an exit comes first, it is the only entry of the bar, for the whole position: one that waited at
      the execution price of the bar, one called for by this close at the close. */
  lemma ExitsAreMade(c: Config, t: Tape, n: nat)
    requires c.Valid() && t.Valid() && n < |t.views| && ExitsFirst(c, Run(c, t, n), t.closes[n])
    ensures
      var s, v, after := Run(c, t, n), t.views[n], Run(c, t, n + 1).log;
      if s.pendingExit.Some? then Logs(s.log, after, n, s.pendingExit.value, v.price, s.position)
      else
        Logs(s.log, after, n, ExitDue(s.position, s.positionPrice, s.positionStop, c.takeProfitPct, t.closes[n]).value,
             t.closes[n], s.position)
  {
    hide Trade, ExitDue, Marked, ExecutionModel.SellProceeds;
  }
}
