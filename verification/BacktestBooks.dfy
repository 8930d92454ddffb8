/** The trade log is a complete account: every entry has its cause in the bar it names, and the cash
    written in it follows from the entries up to it and the costs of their fills. */
module BacktestBooks {
  import opened Backtester
  import opened BacktestCosts
  import opened BacktestInputs
  import opened BacktestLedger
  import opened Execution
  import opened PositionSizing
  import opened Wrappers

  /** What a log entry brings to the gross cash: a sale its value, a purchase its value as an outlay, a
      cover the difference to the short sale before it. */
  function FlowAt(log: seq<LogEntry>, k: nat): real
    requires k < |log|
  {
    match log[k].action
    case Buy => -(log[k].qty as real * log[k].price)
    case Short => 0.0
    case ShortCover => CoverFlow(log, k)
    case FinalShortCover => CoverFlow(log, k)
    case _ => log[k].qty as real * log[k].price
  }

  function CoverFlow(log: seq<LogEntry>, k: nat): real
    requires k < |log|
  {
    if k == 0 then 0.0 else (log[k - 1].price - log[k].price) * log[k].qty as real
  }

  function Flow(log: seq<LogEntry>): real {
    if log == [] then 0.0 else Flow(log[..|log| - 1]) + FlowAt(log, |log| - 1)
  }

  /** The costs settled by a log: of all its fills, save that of a short sale still open at its end. */
  function SettledIn(c: Config, t: Tape, log: seq<LogEntry>): real
    requires BarsWithin(t, log)
  {
    TotalCost(c, t, log)
    - (if log != [] && log[|log| - 1].action == Short then CostOf(c, t, log[|log| - 1]) else 0.0)
  }

  /** Why an entry is in the log: a signal filled at its price, a stop or target executed at the bar's
      price (its close without a lag), or the end of the data. */
  predicate Caused(c: Config, t: Tape, e: LogEntry)
    requires t.Valid()
  {
    e.bar < |t.views| &&
    var v, close := t.views[e.bar], t.closes[e.bar];
    match e.action
    case Buy => v.signal == 1 && v.fill == Some(e.price)
    case Sell => v.signal == -1 && v.fill == Some(e.price)
    case Short => c.enableShort && v.signal == -1 && v.fill == Some(e.price)
    case ShortCover => c.enableShort && v.signal == 1 && v.fill == Some(e.price)
    case FinalSell => e.bar == |t.views| - 1 && e.price == close
    case FinalShortCover => e.bar == |t.views| - 1 && e.price == close
    case _ => e.price == if c.executionLag > 0 then v.price else close
  }

  /** The entry's cash is what the log up to it leaves, gross and net. */
  predicate BookedAt(c: Config, t: Tape, log: seq<LogEntry>, k: nat)
    requires k < |log| && BarsWithin(t, log)
  {
    && log[k].cashGross == c.initialCash + Flow(log[..k + 1])
    && log[k].cash == log[k].cashGross - SettledIn(c, t, log[..k + 1])
  }

  predicate BooksKept(c: Config, t: Tape, log: seq<LogEntry>)
    requires t.Valid()
  {
    && BarsWithin(t, log)
    && (forall k :: 0 <= k < |log| ==> Caused(c, t, log[k]))
    && forall k :: 0 <= k < |log| ==> BookedAt(c, t, log, k)
  }

  predicate Books(c: Config, t: Tape, s: State)
    requires t.Valid()
  {
    BooksKept(c, t, s.log) && s.cashGross == c.initialCash + Flow(s.log)
  }

  // ----- one more entry -----

  /** The accounts before and after an operation are in order. */
  predicate InOrder(c: Config, t: Tape, s: State)
    requires c.Valid() && t.Valid()
  {
    Ledger(c, t, s) && OpenMatchesLog(c, t, s) && Alternates(s.log) && WholeLots(c, s.log)
  }

  /** r is s after one log entry that carries r's cash. */
  predicate Adds(s: State, r: State, x: LogEntry) {
    r.log == s.log + [x] && x.cash == r.cash && x.cashGross == r.cashGross
  }

  lemma FlowAppends(log: seq<LogEntry>, x: LogEntry)
    ensures Flow(log + [x]) == Flow(log) + FlowAt(log + [x], |log|)
  {
    assert (log + [x])[..|log|] == log;
  }

  lemma LedgerIsSettled(c: Config, t: Tape, s: State)
    requires c.Valid() && t.Valid() && InOrder(c, t, s)
    ensures s.cash == s.cashGross - SettledIn(c, t, s.log)
  {
    if s.log != [] { assert FitsAt(s.log, |s.log| - 1); }
  }

  lemma BookedEarlier(c: Config, t: Tape, log: seq<LogEntry>, x: LogEntry, k: nat)
    requires k < |log| && BarsWithin(t, log) && x.bar < |t.views| && BookedAt(c, t, log, k)
    ensures BarsWithin(t, log + [x]) && BookedAt(c, t, log + [x], k)
  {
    assert (log + [x])[..k + 1] == log[..k + 1];
  }

  lemma AddKeepsBooks(c: Config, t: Tape, s: State, r: State, x: LogEntry)
    requires c.Valid() && t.Valid() && Books(c, t, s) && Adds(s, r, x) && Caused(c, t, x)
    requires InOrder(c, t, r)
    requires r.cashGross == s.cashGross + FlowAt(r.log, |s.log|)
    ensures Books(c, t, r)
  {
    FlowAppends(s.log, x);
    LedgerIsSettled(c, t, r);
    forall k | 0 <= k < |r.log|
      ensures BookedAt(c, t, r.log, k)
    {
      if k < |s.log| { BookedEarlier(c, t, s.log, x, k); } else { assert r.log[..k + 1] == r.log; }
    }
  }

  // ----- the kinds of entries -----

  lemma CloseLongBooks(c: Config, t: Tape, s: State, n: nat, action: Action, price: real)
    requires c.Valid() && t.Valid() && n < |t.views| && Books(c, t, s)
    requires action == Sell || action == StopLoss || action == TakeProfit || action == FinalSell
    requires InOrder(c, t, CloseLong(c, t.views[n], s, action, price))
    requires Caused(c, t, LogEntry(n, action, price, s.position, 0.0, 0.0))
    ensures Books(c, t, CloseLong(c, t.views[n], s, action, price))
  {
    var r := CloseLong(c, t.views[n], s, action, price);
    AddKeepsBooks(c, t, s, r, r.log[|s.log|]);
  }

  lemma CoverShortBooks(c: Config, t: Tape, s: State, n: nat, action: Action, price: real)
    requires c.Valid() && t.Valid() && n < |t.views| && Books(c, t, s) && OpenMatchesLog(c, t, s) && s.shortPosition > 0
    requires action == ShortCover || action == FinalShortCover
    requires InOrder(c, t, CoverShort(c, t.views[n], s, action, price))
    requires Caused(c, t, LogEntry(n, action, price, s.shortPosition, 0.0, 0.0))
    ensures Books(c, t, CoverShort(c, t.views[n], s, action, price))
  {
    var r := CoverShort(c, t.views[n], s, action, price);
    AddKeepsBooks(c, t, s, r, r.log[|s.log|]);
  }

  lemma BoughtBooks(c: Config, t: Tape, s: State, n: nat, qty: int, price: real)
    requires c.Valid() && t.Valid() && n < |t.views| && Books(c, t, s)
    requires InOrder(c, t, Bought(c, t.views[n], s, qty, price))
    requires Caused(c, t, LogEntry(n, Buy, price, qty, 0.0, 0.0))
    ensures Books(c, t, Bought(c, t.views[n], s, qty, price))
  {
    var r := Bought(c, t.views[n], s, qty, price);
    AddKeepsBooks(c, t, s, r, r.log[|s.log|]);
  }

  lemma OpenLongBooks(c: Config, t: Tape, s: State, n: nat, price: real)
    requires c.Valid() && t.Valid() && n < |t.views| && Books(c, t, s)
    requires InOrder(c, t, OpenLong(c, t.views[n], s, price))
    requires Caused(c, t, LogEntry(n, Buy, price, 1, 0.0, 0.0))
    ensures Books(c, t, OpenLong(c, t.views[n], s, price))
  {
    var qty := EntryQty(c, t.views[n], s.cash, price);
    if qty > 0 { BoughtBooks(c, t, s, n, qty, price); }
  }

  lemma OpenShortBooks(c: Config, t: Tape, s: State, n: nat, price: real)
    requires c.Valid() && t.Valid() && n < |t.views| && Books(c, t, s) && InOrder(c, t, s)
    requires InOrder(c, t, OpenShort(c, t.views[n], s, price))
    requires Caused(c, t, LogEntry(n, Short, price, 1, 0.0, 0.0))
    ensures Books(c, t, OpenShort(c, t.views[n], s, price))
  {
    var r := OpenShort(c, t.views[n], s, price);
    if EntryQty(c, t.views[n], s.cash, price) > 0 { AddKeepsBooks(c, t, s, r, r.log[|s.log|]); }
  }

  lemma TradeBooks(c: Config, t: Tape, s: State, n: nat)
    requires c.Valid() && t.Valid() && n < |t.views| && Books(c, t, s) && InOrder(c, t, s)
    requires InOrder(c, t, Trade(c, t.views[n], s))
    ensures Books(c, t, Trade(c, t.views[n], s))
  {
    var v := t.views[n];
    if v.fill.Some? {
      if v.signal == 1 && c.enableShort && s.shortPosition > 0 {
        CoverShortBooks(c, t, s, n, ShortCover, v.fill.value);
      } else if v.signal == 1 && s.position == 0 {
        OpenLongBooks(c, t, s, n, v.fill.value);
      } else if v.signal == -1 && s.position > 0 {
        CloseLongBooks(c, t, s, n, Sell, v.fill.value);
      } else if v.signal == -1 && c.enableShort && s.position == 0 && s.shortPosition == 0 {
        OpenShortBooks(c, t, s, n, v.fill.value);
      }
    }
  }

  /** Recording the equity and judging the close leave the accounts as they are. */
  lemma OnlyAccounts(c: Config, t: Tape, s: State, r: State)
    requires c.Valid() && t.Valid() && s.log == r.log && s.cashGross == r.cashGross && s.cash == r.cash
    requires s.position == r.position && s.positionPrice == r.positionPrice && s.positionStop == r.positionStop
    requires s.shortPosition == r.shortPosition && s.shortPrice == r.shortPrice && s.shortEntryVol == r.shortEntryVol
    ensures InOrder(c, t, s) == InOrder(c, t, r) && Books(c, t, s) == Books(c, t, r)
  {
  }

  lemma StepAccounts(c: Config, t: Tape, s: State, n: nat)
    requires c.Valid() && t.Valid() && n < |t.views| && WellKept(c, t, s, n) && Ledger(c, t, s)
    ensures InOrder(c, t, Step(c, t.views[n], t.closes[n], s))
  {
    StepKeeps(c, t, s, n);
    StepLedger(c, t, s, n);
  }

  lemma ExitStepBooks(c: Config, t: Tape, s: State, n: nat, action: Action, price: real)
    requires c.Valid() && t.Valid() && n < |t.views| && Books(c, t, s)
    requires action == StopLoss || action == TakeProfit
    requires price == if c.executionLag > 0 then t.views[n].price else t.closes[n]
    requires InOrder(c, t, Recorded(c, t.views[n], t.closes[n], CloseLong(c, t.views[n], s, action, price)))
    ensures Books(c, t, Recorded(c, t.views[n], t.closes[n], CloseLong(c, t.views[n], s, action, price)))
  {
    var m := CloseLong(c, t.views[n], s, action, price);
    OnlyAccounts(c, t, m, Recorded(c, t.views[n], t.closes[n], m));
    CloseLongBooks(c, t, s, n, action, price);
  }

  lemma TradeStepBooks(c: Config, t: Tape, s: State, n: nat)
    requires c.Valid() && t.Valid() && n < |t.views| && Books(c, t, s) && InOrder(c, t, s)
    requires InOrder(c, t, Recorded(c, t.views[n], t.closes[n], Judged(c, t.closes[n], Trade(c, t.views[n], s))))
    ensures Books(c, t, Recorded(c, t.views[n], t.closes[n], Judged(c, t.closes[n], Trade(c, t.views[n], s))))
  {
    var m := Trade(c, t.views[n], s);
    OnlyAccounts(c, t, m, Recorded(c, t.views[n], t.closes[n], Judged(c, t.closes[n], m)));
    TradeBooks(c, t, s, n);
  }

  lemma StepBooks(c: Config, t: Tape, s: State, n: nat)
    requires c.Valid() && t.Valid() && n < |t.views| && InOrder(c, t, s) && Books(c, t, s)
    requires s.pendingExit.Some? ==>
              c.executionLag > 0 && (s.pendingExit == Some(StopLoss) || s.pendingExit == Some(TakeProfit))
    requires InOrder(c, t, Step(c, t.views[n], t.closes[n], s))
    ensures Books(c, t, Step(c, t.views[n], t.closes[n], s))
  {
    var v, close := t.views[n], t.closes[n];
    var s0 := s.(pendingExit := None);
    OnlyAccounts(c, t, s, s0);
    var due := ExitDue(s.position, s.positionPrice, s.positionStop, c.takeProfitPct, close);
    if s.pendingExit.Some? && s.position > 0 {
      ExitStepBooks(c, t, s0, n, s.pendingExit.value, v.price);
    } else if c.executionLag == 0 && due.Some? {
      ExitStepBooks(c, t, s0, n, due.value, close);
    } else {
      TradeStepBooks(c, t, s0, n);
    }
  }

  lemma PendingOnlyWithLag(c: Config, v: BarView, close: real, s: State)
    requires c.Valid()
    ensures Step(c, v, close, s).pendingExit.Some? ==> c.executionLag > 0
  {
  }

  predicate BooksAt(c: Config, t: Tape, n: nat)
    requires c.Valid() && t.Valid() && n <= |t.views|
  {
    Books(c, t, Run(c, t, n)) && (Run(c, t, n).pendingExit.Some? ==> c.executionLag > 0)
  }

  lemma BooksAfter(c: Config, t: Tape, n: nat)
    requires c.Valid() && t.Valid() && n < |t.views| && BooksAt(c, t, n)
    ensures BooksAt(c, t, n + 1)
  {
    RunKeeps(c, t, n);
    RunLedger(c, t, n);
    StepAccounts(c, t, Run(c, t, n), n);
    StepBooks(c, t, Run(c, t, n), n);
    PendingOnlyWithLag(c, t.views[n], t.closes[n], Run(c, t, n));
  }

  lemma {:induction false} RunBooks(c: Config, t: Tape, n: nat)
    requires c.Valid() && t.Valid() && n <= |t.views|
    ensures BooksAt(c, t, n)
  {
    hide Run, BooksAt;
    if n == 0 {
      BooksAtStart(c, t);
    } else {
      RunBooks(c, t, n - 1);
      BooksAfter(c, t, n - 1);
    }
  }

  lemma BooksAtStart(c: Config, t: Tape)
    requires c.Valid() && t.Valid()
    ensures Run(c, t, 0) == Initial(c) && BooksAt(c, t, 0)
  {
  }

  /** The finished log, forced close included, is a complete account of the final cash. */
  lemma SimulationBooks(c: Config, t: Tape)
    requires c.Valid() && t.Valid()
    ensures
      var r := Simulated(c, t);
      && BooksKept(c, t, r.log)
      && r.cashGross == c.initialCash + Flow(r.log) && r.cash == c.initialCash + Flow(r.log) - TotalCost(c, t, r.log)
  {
    var s := Run(c, t, |t.views|);
    RunBooks(c, t, |t.views|);
    RunKeeps(c, t, |t.views|);
    RunLedger(c, t, |t.views|);
    SettledBooks(c, t, s);
    SimulationLedger(c, t);
  }

  lemma SettledBooks(c: Config, t: Tape, s: State)
    requires c.Valid() && t.Valid() && WellKept(c, t, s, |t.views|) && Ledger(c, t, s) && Books(c, t, s)
    ensures Books(c, t, Settled(c, t, s))
  {
    hide ExecutionModel.SellProceeds, ExecutionModel.BuyCost;
    if |t.views| > 0 && (s.position > 0 || s.shortPosition > 0) {
      var n := |t.views| - 1;
      if s.position > 0 {
        SoldAccounts(c, t, s, n);
        CloseLongBooks(c, t, s, n, FinalSell, t.closes[n]);
      } else {
        CoveredAccounts(c, t, s, n);
        CoverShortBooks(c, t, s, n, FinalShortCover, t.closes[n]);
      }
    }
  }

  lemma SoldAccounts(c: Config, t: Tape, s: State, n: nat)
    requires c.Valid() && t.Valid() && n < |t.views| && InOrder(c, t, s) && s.position > 0
    ensures InOrder(c, t, CloseLong(c, t.views[n], s, FinalSell, t.closes[n]))
  {
    CloseLongLedger(c, t, s, n, FinalSell, t.closes[n]);
    ExitExtends(c, s.log, CloseLong(c, t.views[n], s, FinalSell, t.closes[n]).log[|s.log|]);
  }

  lemma CoveredAccounts(c: Config, t: Tape, s: State, n: nat)
    requires c.Valid() && t.Valid() && n < |t.views| && InOrder(c, t, s) && s.shortPosition > 0
    ensures InOrder(c, t, CoverShort(c, t.views[n], s, FinalShortCover, t.closes[n]))
  {
    CoverShortLedger(c, t, s, n, FinalShortCover, t.closes[n]);
    ExitExtends(c, s.log, CoverShort(c, t.views[n], s, FinalShortCover, t.closes[n]).log[|s.log|]);
  }
}
