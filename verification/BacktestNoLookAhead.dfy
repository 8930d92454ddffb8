/** No look-ahead: with an execution lag, the trade log up to a bar is determined by what was
    known when that bar opened. Two runs are compared. */
module BacktestNoLookAhead {
  import opened Backtester
  import opened BacktestInputs
  import opened Execution
  import opened Wrappers

  /** The two inputs agree on every bar before t, and on every signal and prediction that the
      lag lets through by bar t. */
  predicate SamePast(c: Config, d1: MarketData, d2: MarketData, t: nat)
    requires d1.Valid() && d2.Valid()
  {
    && t <= |d1.bars| && t <= |d2.bars|
    && d1.columns == d2.columns && d1.earlierCloses == d2.earlierCloses
    && d1.bars[..t] == d2.bars[..t]
    && (forall i ::
        0 <= i && i + c.executionLag <= t && i < |d1.bars| && i < |d2.bars| ==> d1.signal[i] == d2.signal[i])
    && (d1.pred.Some? <==> d2.pred.Some?)
    && (d1.pred.Some? ==> forall i :: 0 <= i && i + c.executionLag <= t && i < |d1.bars| && i < |d2.bars| ==>
          d1.pred.value[i] == d2.pred.value[i])
  }

  /** The two inputs agree on what bar t itself may be traded on: its opening (its close when the
      table has no opening), a published ATR of the bar before, and, when limits can fill, its
      high, low and close. */
  predicate SameOpening(c: Config, d1: MarketData, d2: MarketData, t: nat)
    requires t < |d1.bars| && t < |d2.bars| && d1.columns == d2.columns
  {
    var (b1, b2) := (d1.bars[t], d2.bars[t]);
    && (if d1.columns.open then b1.open == b2.open else b1.close == b2.close)
    && (d1.columns.atrLag1 ==> b1.atrLag1 == b2.atrLag1)
    && (c.limitOrderFill ==> b1.high == b2.high && b1.low == b2.low && b1.close == b2.close)
  }

  /** A rolling mean moved one bar later only reads what is before its bar. */
  lemma RollingCausal(x1: seq<Option<real>>, x2: seq<Option<real>>, window: nat, i: nat)
    requires i < |x1| && i < |x2|
    requires forall j :: 0 <= j < i ==> x1[j] == x2[j]
    ensures Shift(Rolling(x1, window), 1)[i] == Shift(Rolling(x2, window), 1)[i]
  {
    if i > 0 {
      var from := if i >= window then i - window else 0;
      assert x1[from..i] == x2[from..i];
    }
  }

  lemma InputsCausal(c: Config, d1: MarketData, d2: MarketData, t: nat, i: nat)
    requires c.Valid() && c.executionLag > 0 && d1.Valid() && d2.Valid()
    requires SamePast(c, d1, d2, t) && i <= t && i < |d1.bars| && i < |d2.bars|
    requires i < t || SameOpening(c, d1, d2, i)
    ensures
      var e1, e2 := BuildExecutionInputs(d1, c.executionLag), BuildExecutionInputs(d2, c.executionLag);
      && e1.price[i] == e2.price[i] && e1.avgVol[i] == e2.avgVol[i] && e1.signal[i] == e2.signal[i]
      && e1.pred[i] == e2.pred[i] && e1.atr[i] == e2.atr[i]
  {
    PrefixBars(d1, d2, t);
    RollingCausal(Volumes(d1), Volumes(d2), AVG_VOL_WINDOW, i);
  }

  lemma PrefixBars(d1: MarketData, d2: MarketData, t: nat)
    requires t <= |d1.bars| && t <= |d2.bars| && d1.bars[..t] == d2.bars[..t]
    ensures forall j :: 0 <= j < t ==> d1.bars[j] == d2.bars[j]
  {
    forall j | 0 <= j < t
      ensures d1.bars[j] == d2.bars[j]
    {
      assert d1.bars[..t][j] == d2.bars[..t][j];
    }
  }

  /** The forecast at a close depends only on the closes up to it. */
  lemma SeriesCausal(f: Forecast, x1: seq<real>, x2: seq<real>, k: nat)
    requires k < |x1| && k < |x2| && x1[..k + 1] == x2[..k + 1]
    ensures ForecastSeries(f, x1)[k] == ForecastSeries(f, x2)[k]
  {
    var from := if k + 1 >= f.window then k + 1 - f.window else 0;
    forall j | 0 <= j <= k
      ensures x1[j] == x2[j]
    {
      assert x1[..k + 1][j] == x2[..k + 1][j];
    }
    assert LogReturns(f, x1)[from..k + 1] == LogReturns(f, x2)[from..k + 1];
  }

  lemma ForecastCausal(d1: MarketData, d2: MarketData, f: Forecast, t: nat, i: nat)
    requires t <= |d1.bars| && t <= |d2.bars| && d1.bars[..t] == d2.bars[..t] && d1.earlierCloses == d2.earlierCloses
    requires i <= t && i < |d1.bars| && i < |d2.bars|
    ensures LaggedForecast(d1, f)[i] == LaggedForecast(d2, f)[i]
  {
    PrefixBars(d1, d2, t);
    var x1, x2 := d1.earlierCloses + Closes(d1), d2.earlierCloses + Closes(d2);
    var k := |d1.earlierCloses| + i;
    if k > 0 {
      assert x1[..k] == x2[..k];
      SeriesCausal(f, x1, x2, k - 1);
    }
  }

  lemma LimitFillCausal(c: Config, d1: MarketData, d2: MarketData, t: nat, i: nat, isBuySide: bool, price: real)
    requires c.Valid() && c.executionLag > 0 && d1.Valid() && d2.Valid()
    requires SamePast(c, d1, d2, t) && i <= t && i < |d1.bars| && i < |d2.bars|
    requires i < t || SameOpening(c, d1, d2, i)
    ensures BuildLimitFill(c, d1).FillPrice(i, isBuySide, price) == BuildLimitFill(c, d2).FillPrice(i, isBuySide, price)
  {
    PrefixBars(d1, d2, t);
    RollingCausal(Volumes(d1), Volumes(d2), c.limits.lookback, i);
    RollingCausal(Ranges(d1), Ranges(d2), c.limits.lookback, i);
    var l1, l2 := BuildLimitFill(c, d1), BuildLimitFill(c, d2);
    assert l1.refPrice[i] == l2.refPrice[i];
    assert l1.avgVolume[i] == l2.avgVolume[i];
    assert l1.spread[i] == l2.spread[i];
    if c.limitOrderFill {
      assert l1.high[i] == l2.high[i] && l1.low[i] == l2.low[i] && l1.close[i] == l2.close[i];
    }
  }

  /** Before its close, bar i shows the simulation the same in both inputs. */
  lemma ViewCausal(c: Config, d1: MarketData, d2: MarketData, t: nat, i: nat)
    requires c.Valid() && c.executionLag > 0 && d1.Valid() && d2.Valid()
    requires SamePast(c, d1, d2, t) && i <= t && i < |d1.bars| && i < |d2.bars|
    requires i < t || SameOpening(c, d1, d2, i)
    ensures ViewOf(c, d1, i) == ViewOf(c, d2, i)
  {
    InputsCausal(c, d1, d2, t, i);
    ForecastCausal(d1, d2, c.sizeForecast, t, i);
    ForecastCausal(d1, d2, c.stopForecast, t, i);
    var e1 := BuildExecutionInputs(d1, c.executionLag);
    LimitFillCausal(c, d1, d2, t, i, e1.signal[i].GetOr(0) == 1, e1.price[i]);
  }

  predicate SameTape(t1: Tape, t2: Tape, n: nat)
    requires t1.Valid() && t2.Valid()
  {
    && n <= |t1.views| && n <= |t2.views|
    && forall i :: 0 <= i < n ==> t1.views[i] == t2.views[i] && t1.closes[i] == t2.closes[i]
  }

  /** Runs over tapes with the same first n bars reach the same state. */
  lemma {:induction false} SameRun(c: Config, t1: Tape, t2: Tape, n: nat)
    requires c.Valid() && t1.Valid() && t2.Valid() && SameTape(t1, t2, n)
    ensures Run(c, t1, n) == Run(c, t2, n)
  {
    if n == 0 {
      SameStart(c, t1, t2);
    } else {
      var m := n - 1;
      SameRun(c, t1, t2, m);
      SameAfter(c, t1, t2, m);
      assert Run(c, t1, m + 1) == Run(c, t2, m + 1);
    }
  }

  lemma SameStart(c: Config, t1: Tape, t2: Tape)
    requires c.Valid() && t1.Valid() && t2.Valid()
    ensures Run(c, t1, 0) == Run(c, t2, 0)
  {
  }

  lemma SameAfter(c: Config, t1: Tape, t2: Tape, n: nat)
    requires c.Valid() && t1.Valid() && t2.Valid() && n < |t1.views| && n < |t2.views| && Run(c, t1, n) == Run(c, t2, n)
    requires t1.views[n] == t2.views[n] && t1.closes[n] == t2.closes[n]
    ensures Run(c, t1, n + 1) == Run(c, t2, n + 1)
  {
  }

  /** With a lag, the close of a bar changes no log entry of that bar. */
  lemma CloseNotTraded(c: Config, v: BarView, close1: real, close2: real, s: State)
    requires c.Valid() && c.executionLag > 0
    ensures Step(c, v, close1, s).log == Step(c, v, close2, s).log
  {
  }

  /** The state that bar t starts from is the same in both runs. */
  lemma SameStateBefore(c: Config, d1: MarketData, d2: MarketData, t: nat)
    requires c.Valid() && c.executionLag > 0 && d1.Valid() && d2.Valid()
    requires SamePast(c, d1, d2, t)
    ensures Run(c, TapeOf(c, d1), t) == Run(c, TapeOf(c, d2), t)
  {
    var t1, t2 := TapeOf(c, d1), TapeOf(c, d2);
    forall i | 0 <= i < t
      ensures t1.views[i] == t2.views[i] && t1.closes[i] == t2.closes[i]
    {
      ViewCausal(c, d1, d2, t, i);
      PrefixBars(d1, d2, t);
    }
    SameRun(c, t1, t2, t);
  }

  /** No look-ahead: inputs that agree on everything known when bar t opens have the same log,
      entry by entry, through bar t. */
  lemma NoLookAhead(c: Config, d1: MarketData, d2: MarketData, t: nat)
    requires c.Valid() && c.executionLag > 0 && d1.Valid() && d2.Valid()
    requires t < |d1.bars| && t < |d2.bars|
    requires SamePast(c, d1, d2, t) && SameOpening(c, d1, d2, t)
    ensures Run(c, TapeOf(c, d1), t + 1).log == Run(c, TapeOf(c, d2), t + 1).log
  {
    SameStateBefore(c, d1, d2, t);
    ViewCausal(c, d1, d2, t, t);
    CloseNotTraded(c, ViewOf(c, d1, t), d1.bars[t].close, d2.bars[t].close, Run(c, TapeOf(c, d1), t));
  }

  /** The first n bars of an input. */
  function Truncated(d: MarketData, n: nat): (r: MarketData)
    requires d.Valid() && n <= |d.bars|
    ensures r.Valid()
  {
    d.(bars := d.bars[..n], signal := d.signal[..n],
       pred := if d.pred.Some? then Some(d.pred.value[..n]) else None)
  }

  /** A run cut off after n bars trades exactly what the longer run trades in those bars: apart
      from the forced close at its own end, its log is a prefix of the longer run's log. */
  lemma TruncatedRunIsPrefix(c: Config, d: MarketData, n: nat)
    requires c.Valid() && c.executionLag > 0 && d.Valid() && n <= |d.bars|
    ensures
      var short, long := TapeOf(c, Truncated(d, n)), TapeOf(c, d);
      && Run(c, short, n) == Run(c, long, n)
      && Run(c, short, n).log <= Run(c, long, |d.bars|).log <= Simulated(c, long).log
  {
    var long := TapeOf(c, d);
    SameStateBefore(c, Truncated(d, n), d, n);
    LogPrefix(c, long, n, |d.bars|);
    SettledGrows(c, long, Run(c, long, |d.bars|));
  }
}
