/** The level of equity after every bar, from the log: what the cash account holds and what the open
    position is worth at the close. */
module BacktestEquity {
  import opened Backtester
  import opened BacktestBooks
  import opened BacktestCosts
  import opened BacktestInputs
  import opened BacktestLedger
  import opened Execution
  import opened Wrappers

  /** What the last entry of a log leaves open is worth at a price: the shares of a purchase their value, a
      short sale the fall of the price since. */
  function OpenWorth(log: seq<LogEntry>, price: real): real {
    if log == [] then 0.0
    else
      var e := log[|log| - 1];
      match e.action
      case Buy => e.qty as real * price
      case Short => e.qty as real * (e.price - price)
      case _ => 0.0
  }

  lemma MarkedGross(c: Config, t: Tape, s: State, n: nat)
    requires c.Valid() && t.Valid() && n < |t.views| && WellKept(c, t, s, n + 1)
    ensures Marked(c, t.views[n], t.closes[n], s).gross == s.cashGross + OpenWorth(s.log, t.closes[n])
  {
    hide ExecutionModel.BuyCost, ExecutionModel.SellProceeds, WellKept;
    if s.position > 0 || s.shortPosition > 0 {
      WhatIsOpen(c, t, s, n + 1);
      Swapped(s.shortPrice - t.closes[n], s.shortPosition as real);
    } else {
      NothingOpen(c, t, s, n + 1, t.closes[n]);
    }
  }

  lemma WhatIsOpen(c: Config, t: Tape, s: State, n: nat)
    requires c.Valid() && t.Valid() && WellKept(c, t, s, n) && (s.position > 0 || s.shortPosition > 0)
    ensures
      s.log != [] &&
      var e := s.log[|s.log| - 1];
      || (e.action == Buy && s.position == e.qty && s.shortPosition == 0)
      || (e.action == Short && s.position == 0 && s.shortPosition == e.qty && s.shortPrice == e.price)
  {
    if s.log != [] { assert FitsAt(s.log, |s.log| - 1); }
  }

  lemma NothingOpen(c: Config, t: Tape, s: State, n: nat, close: real)
    requires c.Valid() && t.Valid() && WellKept(c, t, s, n) && s.position <= 0 && s.shortPosition <= 0
    ensures s.position == 0 && OpenWorth(s.log, close) == 0.0
  {
    if s.log != [] { assert FitsAt(s.log, |s.log| - 1); }
  }

  lemma Swapped(x: real, y: real)
    ensures x * y == y * x
  {
  }

  /** Every gross record is the initial cash, the flows of the log so far, and the worth of what it leaves
      open at the close of the bar. */
  lemma EquityLevel(c: Config, t: Tape, i: nat)
    requires c.Valid() && t.Valid() && i < |t.views|
    ensures i < |Simulated(c, t).equity| && Run(c, t, i + 1).log <= Simulated(c, t).log
    ensures
      var log := Run(c, t, i + 1).log;
      Simulated(c, t).equity[i].gross == c.initialCash + Flow(log) + OpenWorth(log, t.closes[i])
  {
    hide Run, Flow, OpenWorth, Marked;
    SimulatedKeepsRecords(c, t);
    RecordOfBar(c, t, |t.views|, i);
    RunKeeps(c, t, i + 1);
    RunBooks(c, t, i + 1);
    MarkedGross(c, t, Run(c, t, i + 1), i);
    LogPrefix(c, t, i + 1, |t.views|);
    SettledGrows(c, t, Run(c, t, |t.views|));
    PrefixOfPrefix(Run(c, t, i + 1).log, Run(c, t, |t.views|).log, Simulated(c, t).log);
  }

  lemma SimulatedKeepsRecords(c: Config, t: Tape)
    requires c.Valid() && t.Valid()
    ensures Simulated(c, t).equity == Run(c, t, |t.views|).equity
  {
    hide Run;
  }

  lemma SettledWorth(c: Config, t: Tape, s: State)
    requires c.Valid() && t.Valid() && |t.views| > 0 && WellKept(c, t, s, |t.views|)
    ensures Settled(c, t, s).cashGross == Marked(c, t.views[|t.views| - 1], t.closes[|t.views| - 1], s).gross
  {
    if s.log != [] { assert FitsAt(s.log, |s.log| - 1); }
  }

  /** The last gross record is what the forced close leaves in the gross account: both are at the last
      close. */
  lemma LastRecordIsRealised(c: Config, t: Tape)
    requires c.Valid() && t.Valid() && |t.views| > 0
    ensures |Simulated(c, t).equity| == |t.views|
    ensures Simulated(c, t).equity[|t.views| - 1].gross == Simulated(c, t).cashGross
  {
    hide Run, Marked, Settled;
    var n := |t.views|;
    SimulatedKeepsRecords(c, t);
    RecordOfBar(c, t, n, n - 1);
    RunKeeps(c, t, n);
    SettledWorth(c, t, Run(c, t, n));
  }
}
