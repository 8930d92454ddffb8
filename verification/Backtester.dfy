/** The bar-by-bar trading simulation: a specification as a fold over the bars, and the loop of
    the source that computes it. */
module Backtester {
  import opened BacktestInputs
  import opened Execution
  import opened PositionSizing
  import opened Wrappers

  datatype Action = Buy | Sell | StopLoss | TakeProfit | FinalSell | Short | ShortCover | FinalShortCover

  datatype LogEntry = LogEntry(bar: nat, action: Action, price: real, qty: int, cash: real, cashGross: real)

  /** One mark-to-market record: net of costs and gross. */
  datatype EquityRecord = EquityRecord(bar: nat, net: real, gross: real)

  datatype State = State(
    cash: real, cashGross: real, position: int, positionPrice: real, positionStop: Option<real>,
    shortPosition: int, shortPrice: real, shortEntryVol: real, pendingExit: Option<Action>,
    log: seq<LogEntry>, equity: seq<EquityRecord>)

  function Initial(c: Config): State {
    State(c.initialCash, c.initialCash, 0, 0.0, c.stopLossPct, 0, 0.0, 0.0, None, [], [])
  }

  // ----- the parts of one bar -----

  /** Sell the whole long position. */
  function CloseLong(c: Config, v: BarView, s: State, action: Action, price: real): State {
    var cash := s.cash + c.execution.SellProceeds(s.position, price, v.avgVol);
    var gross := s.cashGross + s.position as real * price;
    s.(cash := cash, cashGross := gross, position := 0, positionPrice := 0.0,
       log := s.log + [LogEntry(v.bar, action, price, s.position, cash, gross)])
  }

  /** Buy back the whole short position; both legs are settled now. */
  function CoverShort(c: Config, v: BarView, s: State, action: Action, price: real): State {
    var cash := s.cash + (c.execution.SellProceeds(s.shortPosition, s.shortPrice, s.shortEntryVol)
                          - c.execution.BuyCost(s.shortPosition, price, v.avgVol));
    var gross := s.cashGross + (s.shortPrice - price) * s.shortPosition as real;
    s.(cash := cash, cashGross := gross, shortPosition := 0, shortPrice := 0.0, shortEntryVol := 0.0,
       log := s.log + [LogEntry(v.bar, action, price, s.shortPosition, cash, gross)])
  }

  function EntryQty(c: Config, v: BarView, cash: real, price: real): int
    requires c.Valid()
  {
    ScaleQty(c.sizeParams, v.sizeForecast,
             PositionQty(c.sizing, cash, price, c.execution, v.pred, v.atr, v.avgVol),
             cash, price, v.avgVol, c.execution)
  }

  function Bought(c: Config, v: BarView, s: State, qty: int, price: real): State {
    var cash := s.cash - c.execution.BuyCost(qty, price, v.avgVol);
    var gross := s.cashGross - qty as real * price;
    s.(cash := cash, cashGross := gross, position := s.position + qty, positionPrice := price,
       positionStop := StopLossPct(c.stopParams, v.stopForecast, c.stopLossPct),
       log := s.log + [LogEntry(v.bar, Buy, price, qty, cash, gross)])
  }

  function OpenLong(c: Config, v: BarView, s: State, price: real): State
    requires c.Valid()
  {
    var qty := EntryQty(c, v, s.cash, price);
    if qty > 0 then Bought(c, v, s, qty, price) else s
  }

  function OpenShort(c: Config, v: BarView, s: State, price: real): State
    requires c.Valid()
  {
    var qty := EntryQty(c, v, s.cash, price);
    if qty > 0 then
      s.(shortPosition := qty, shortPrice := price, shortEntryVol := v.avgVol,
         log := s.log + [LogEntry(v.bar, Short, price, qty, s.cash, s.cashGross)])
    else s
  }

  /** Act on the bar's signal. A limit that is not reached drops the signal. */
  function Trade(c: Config, v: BarView, s: State): State
    requires c.Valid()
  {
    var signal := if v.fill.None? then 0 else v.signal;
    var price := v.fill.GetOr(v.price);
    if signal == 1 && c.enableShort && s.shortPosition > 0 then CoverShort(c, v, s, ShortCover, price)
    else if signal == 1 && s.position == 0 then OpenLong(c, v, s, price)
    else if signal == -1 && s.position > 0 then CloseLong(c, v, s, Sell, price)
    else if signal == -1 && c.enableShort && s.position == 0 && s.shortPosition == 0 then OpenShort(c, v, s, price)
    else s
  }

  /** The exit that a closing price calls for, the stop before the target. */
  function ExitDue(position: int, entryPrice: real, stop: Option<real>, target: Option<real>,
                   close: real): Option<Action> {
    if position > 0 && entryPrice > 0.0 then
      var change := (close - entryPrice) / entryPrice;
      if stop.Some? && change <= -stop.value then Some(StopLoss)
      else if target.Some? && change >= target.value then Some(TakeProfit)
      else None
    else None
  }

  /** Mark-to-market equity at a price: the long position at the price without exit costs, the short
      one as if covered now, its entry leg at the entry's volume. */
  function MarkToMarket(m: ExecutionModel, bar: nat, cash: real, cashGross: real, position: int, price: real,
                        shortPosition: int, shortPrice: real, shortEntryVol: real, execVol: real): EquityRecord
  {
    var long := position as real * price;
    if shortPosition > 0 then
      var shortNet := m.SellProceeds(shortPosition, shortPrice, shortEntryVol) - m.BuyCost(shortPosition, price,
          execVol);
      EquityRecord(bar, cash + long + shortNet, cashGross + long + (shortPrice - price) * shortPosition as real)
    else EquityRecord(bar, cash + long, cashGross + long)
  }

  function Marked(c: Config, v: BarView, close: real, s: State): EquityRecord {
    MarkToMarket(c.execution, v.bar, s.cash, s.cashGross, s.position, close, s.shortPosition, s.shortPrice,
                 s.shortEntryVol, v.avgVol)
  }

  function Recorded(c: Config, v: BarView, close: real, s: State): State {
    s.(equity := s.equity + [Marked(c, v, close, s)])
  }

  /** With a lag, an exit that the close calls for waits for the next bar. */
  function Judged(c: Config, close: real, s: State): State {
    if c.executionLag > 0
    then s.(pendingExit := ExitDue(s.position, s.positionPrice, s.positionStop, c.takeProfitPct, close))
    else s
  }

  function Step(c: Config, v: BarView, close: real, s: State): State
    requires c.Valid()
  {
    var s0 := s.(pendingExit := None);
    if s.pendingExit.Some? && s.position > 0 then
      Recorded(c, v, close, CloseLong(c, v, s0, s.pendingExit.value, v.price))
    else
      var due := ExitDue(s.position, s.positionPrice, s.positionStop, c.takeProfitPct, close);
      if c.executionLag == 0 && due.Some? then Recorded(c, v, close, CloseLong(c, v, s0, due.value, close))
      else Recorded(c, v, close, Judged(c, close, Trade(c, v, s0)))
  }

  /** The state after the first n bars. */
  function Run(c: Config, t: Tape, n: nat): State
    requires c.Valid() && t.Valid() && n <= |t.views|
  {
    if n == 0 then Initial(c) else Step(c, t.views[n - 1], t.closes[n - 1], Run(c, t, n - 1))
  }

  /** Close what is still open at the last close. */
  function Settled(c: Config, t: Tape, s: State): State
    requires c.Valid() && t.Valid()
  {
    if |t.views| == 0 then s
    else
      var v, close := t.views[|t.views| - 1], t.closes[|t.views| - 1];
      var s1 := if s.position > 0 then CloseLong(c, v, s, FinalSell, close) else s;
      if c.enableShort && s1.shortPosition > 0 then CoverShort(c, v, s1, FinalShortCover, close) else s1
  }

  function Simulated(c: Config, t: Tape): State
    requires c.Valid() && t.Valid()
  {
    Settled(c, t, Run(c, t, |t.views|))
  }

  /** The stop and target test of the source: the stop is looked at first. */
  method ComputeExit(c: Config, s: State, close: real) returns (exiting: Option<Action>)
    ensures exiting == ExitDue(s.position, s.positionPrice, s.positionStop, c.takeProfitPct, close)
  {
    exiting := None;
    if s.position > 0 && s.positionPrice > 0.0 {
      var changeFromEntry := (close - s.positionPrice) / s.positionPrice;
      if s.positionStop.Some? && changeFromEntry <= -s.positionStop.value {
        exiting := Some(StopLoss);
      } else if c.takeProfitPct.Some? && changeFromEntry >= c.takeProfitPct.value {
        exiting := Some(TakeProfit);
      }
    }
  }

  /** The signal branches of the source: at most one of cover, buy, sell and short. */
  method ExecuteSignal(c: Config, v: BarView, s: State) returns (r: State)
    requires c.Valid()
    ensures r == Trade(c, v, s)
  {
    r := s;
    var sig, execPrice := v.signal, v.price;
    if v.fill.None? {
      sig := 0;
    } else {
      execPrice := v.fill.value;
    }
    if sig == 1 && c.enableShort && r.shortPosition > 0 {
      r := CoverShort(c, v, r, ShortCover, execPrice);
    } else if sig == 1 && r.position == 0 {
      r := OpenLong(c, v, r, execPrice);
    } else if sig == -1 && r.position > 0 {
      r := CloseLong(c, v, r, Sell, execPrice);
    } else if sig == -1 && c.enableShort && r.position == 0 && r.shortPosition == 0 {
      r := OpenShort(c, v, r, execPrice);
    }
  }

  /** The loop body of the source. */
  method SimulateBar(c: Config, v: BarView, close: real, s: State) returns (r: State)
    requires c.Valid()
    ensures r == Step(c, v, close, s)
  {
    r := s;
    var exiting, exitPrice := r.pendingExit, v.price;
    if exiting.None? || r.position <= 0 {
      exiting := None;
      if c.executionLag == 0 {
        exitPrice := close;
        exiting := ComputeExit(c, r, close);
      }
    }
    r := r.(pendingExit := None);
    if exiting.Some? {
      r := CloseLong(c, v, r, exiting.value, exitPrice);
    } else {
      r := ExecuteSignal(c, v, r);
      if c.executionLag > 0 {
        var due := ComputeExit(c, r, close);
        r := r.(pendingExit := due);
      }
    }
    r := r.(equity := r.equity + [Marked(c, v, close, r)]);
  }

  /** The simulation loop of the source and the forced close of what is left. */
  method SimulateTrading(c: Config, d: MarketData) returns (tradeLog: seq<LogEntry>, equityRecords: seq<EquityRecord>)
    requires c.Valid() && d.Valid()
    ensures tradeLog == Simulated(c, TapeOf(c, d)).log
    ensures equityRecords == Simulated(c, TapeOf(c, d)).equity
  {
    var t := TapeOf(c, d);
    var s := Initial(c);
    for i := 0 to |t.views|
      invariant s == Run(c, t, i)
    {
      s := SimulateBar(c, t.views[i], t.closes[i], s);
    }
    s := SettleOpen(c, t, s);
    tradeLog, equityRecords := s.log, s.equity;
  }

  /** Force what is still open closed at the last close. */
  method SettleOpen(c: Config, t: Tape, s: State) returns (r: State)
    requires c.Valid() && t.Valid()
    ensures r == Settled(c, t, s)
  {
    r := s;
    if |t.views| > 0 {
      var v, close := t.views[|t.views| - 1], t.closes[|t.views| - 1];
      if r.position > 0 {
        r := CloseLong(c, v, r, FinalSell, close);
      }
      if c.enableShort && r.shortPosition > 0 {
        r := CoverShort(c, v, r, FinalShortCover, close);
      }
    }
  }

  // ----- the log only grows -----

  lemma LogGrows(c: Config, v: BarView, close: real, s: State)
    requires c.Valid()
    ensures s.log <= Step(c, v, close, s).log
  {
  }

  lemma LogGrowsAfter(c: Config, t: Tape, n: nat)
    requires c.Valid() && t.Valid() && n < |t.views|
    ensures Run(c, t, n).log <= Run(c, t, n + 1).log
  {
    LogGrows(c, t.views[n], t.closes[n], Run(c, t, n));
  }

  lemma PrefixOfPrefix<T>(a: seq<T>, b: seq<T>, c: seq<T>)
    requires a <= b && b <= c
    ensures a <= c
  {
  }

  lemma {:induction false} LogPrefix(c: Config, t: Tape, m: nat, n: nat)
    requires c.Valid() && t.Valid() && m <= n <= |t.views|
    ensures Run(c, t, m).log <= Run(c, t, n).log
    decreases n
  {
    hide Run;
    if m < n {
      LogPrefix(c, t, m, n - 1);
      LogGrowsAfter(c, t, n - 1);
      PrefixOfPrefix(Run(c, t, m).log, Run(c, t, n - 1).log, Run(c, t, n).log);
    }
  }

  /** The forced close at the end only appends. */
  lemma SettledGrows(c: Config, t: Tape, s: State)
    requires c.Valid() && t.Valid()
    ensures s.log <= Settled(c, t, s).log
  {
  }
}
