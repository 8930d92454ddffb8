/** What a bar shows the simulation, read off the table: prices, lagged signals, means and forecasts over the
    bars before, and the price at which a limit fills. */
module BacktestViews {
  import opened Arithmetic
  import opened BacktestInputs
  import opened LimitOrderRules
  import opened PositionSizing
  import opened TickSize
  import opened Wrappers

  // ----- means -----

  /** What the values present exceed a level by, in sum. */
  function Excess(xs: seq<Option<real>>, level: real): real {
    if xs == [] then 0.0
    else Excess(xs[..|xs| - 1], level) + (if xs[|xs| - 1].Some? then xs[|xs| - 1].value - level else 0.0)
  }

  lemma {:induction false} ExcessIsSum(xs: seq<Option<real>>, level: real)
    ensures Excess(xs, level) == Sum(xs) - Count(xs) as real * level
  {
    if xs != [] {
      var n := Count(xs[..|xs| - 1]);
      ExcessIsSum(xs[..|xs| - 1], level);
      assert (n + 1) as real * level == n as real * level + level;
    }
  }

  lemma {:induction false} CountsPresent(xs: seq<Option<real>>)
    ensures Count(xs) == 0 <==> forall i :: 0 <= i < |xs| ==> xs[i].None?
  {
    if xs != [] {
      var shorter := xs[..|xs| - 1];
      CountsPresent(shorter);
      assert forall i :: 0 <= i < |shorter| ==> shorter[i] == xs[i];
    }
  }

  /** The mean is the level around which the values present balance; there is none exactly when none is
      present. */
  lemma MeanBalances(xs: seq<Option<real>>)
    ensures Mean(xs).None? <==> forall i :: 0 <= i < |xs| ==> xs[i].None?
    ensures Mean(xs).Some? ==> Excess(xs, Mean(xs).value) == 0.0
  {
    CountsPresent(xs);
    if Mean(xs).Some? {
      ExcessIsSum(xs, Mean(xs).value);
      QuotientTimes(Sum(xs), Count(xs) as real);
    }
  }

  lemma QuotientTimes(x: real, n: real)
    requires n != 0.0
    ensures n * (x / n) == x
  {
  }

  // ----- the windows before a bar -----

  /** The volumes of the bars of a window that ends just before position `end`. */
  function VolumesBefore(d: MarketData, window: nat, end: nat): (r: seq<Option<real>>)
    requires end <= |d.bars|
  {
    var from := if end >= window then end - window else 0;
    seq(end - from, k requires 0 <= k < end - from => if d.columns.volume then d.bars[from + k].volume else None)
  }

  /** The ranges of those bars as shares of their closes, of the bars that have both and a close. */
  function RangesBefore(d: MarketData, window: nat, end: nat): (r: seq<Option<real>>)
    requires end <= |d.bars|
  {
    var from := if end >= window then end - window else 0;
    seq(end - from, k requires 0 <= k < end - from =>
      var b := d.bars[from + k];
      if b.high.Some? && b.low.Some? && b.close != 0.0 then Some((b.high.value - b.low.value) / b.close) else None)
  }

  lemma RollingVolume(d: MarketData, window: nat, i: nat)
    requires i < |d.bars| && window >= 1
    ensures Rolling(Volumes(d), window)[i] == Mean(VolumesBefore(d, window, i + 1))
  {
    var from := if i + 1 >= window then i + 1 - window else 0;
    assert Volumes(d)[from..i + 1] == VolumesBefore(d, window, i + 1);
  }

  lemma RollingRange(d: MarketData, window: nat, i: nat)
    requires i < |d.bars| && window >= 1
    ensures Rolling(Ranges(d), window)[i] == Mean(RangesBefore(d, window, i + 1))
  {
    var from := if i + 1 >= window then i + 1 - window else 0;
    assert Ranges(d)[from..i + 1] == RangesBefore(d, window, i + 1);
  }

  // ----- what a bar shows -----

  /** With a lag, bar i is executed at its opening (its close in a table without openings), on the signal and
      the prediction of as many bars before, with the mean volume of the twenty bars before it and the ATR
      of the bar before. */
  lemma BarSees(c: Config, d: MarketData, i: nat)
    requires c.Valid() && d.Valid() && i < |d.bars| && c.executionLag > 0
    ensures
      var v, lag := ViewOf(c, d, i), c.executionLag;
      && v.price == (if d.columns.open then d.bars[i].open else d.bars[i].close)
      && v.signal == (if i >= lag then d.signal[i - lag].GetOr(0) else 0)
      && v.pred == (if i >= lag && d.pred.Some? then d.pred.value[i - lag] else None)
      && v.avgVol == (if i > 0 then Mean(VolumesBefore(d, 20, i)).GetOr(0.0) else 0.0)
      && v.atr == (if d.columns.atrLag1 then d.bars[i].atrLag1
                   else if d.columns.atr && i > 0 then d.bars[i - 1].atr else None)
  {
    hide Rolling, Mean, LaggedForecast, BuildLimitFill;
    if i > 0 { RollingVolume(d, AVG_VOL_WINDOW, i - 1); }
  }

  /** Without a lag it is executed at its own close, on its own signal, prediction and ATR, with the mean
      volume of the twenty bars up to it, and no limit ever holds it up. */
  lemma BarSeesItself(c: Config, d: MarketData, i: nat)
    requires c.Valid() && d.Valid() && i < |d.bars| && c.executionLag == 0
    ensures
      var v := ViewOf(c, d, i);
      && v.price == d.bars[i].close && v.signal == d.signal[i].GetOr(0) && v.fill == Some(d.bars[i].close)
      && v.pred == (if d.pred.Some? then d.pred.value[i] else None)
      && v.avgVol == Mean(VolumesBefore(d, 20, i + 1)).GetOr(0.0)
      && v.atr == (if d.columns.atr then d.bars[i].atr else None)
  {
    hide Rolling, Mean, LaggedForecast;
    RollingVolume(d, AVG_VOL_WINDOW, i);
  }

  /** The forecasts of a bar are those of the last window of returns that ends with the close before it; the
      very first close has none before it. */
  lemma ForecastSees(c: Config, d: MarketData, f: Forecast, i: nat)
    requires c.Valid() && d.Valid() && i < |d.bars| && f.window >= 1
    ensures
      var closes, k := d.earlierCloses + Closes(d), |d.earlierCloses| + i;
      LaggedForecast(d, f)[i]
      == if k == 0 then None
         else Deviation(f, LogReturns(f, closes)[(if k >= f.window then k - f.window else 0)..k])
  {
    hide Deviation, LogReturns;
  }

  /** The forecast of a window of returns: none with too few of them, else the root of their variance about
      their mean, with one degree of freedom less than there are returns. */
  lemma DeviationIs(f: Forecast, xs: seq<Option<real>>) returns (mean: real, variance: real)
    ensures Deviation(f, xs).None? <==> Count(xs) < f.minObservations || Count(xs) < 2
    ensures Deviation(f, xs).Some? ==>
              && Excess(xs, mean) == 0.0 && (Count(xs) - 1) as real * variance == SquaredDistances(xs, mean)
              && Deviation(f, xs) == Some(f.root(variance))
  {
    mean, variance := 0.0, 0.0;
    if Deviation(f, xs).Some? {
      mean := Sum(xs) / Count(xs) as real;
      variance := SquaredDistances(xs, mean) / (Count(xs) - 1) as real;
      MeanBalances(xs);
      QuotientTimes(SquaredDistances(xs, mean), (Count(xs) - 1) as real);
    }
  }

  // ----- limits -----

  /** The mean volume of the bars before is known and below the threshold. */
  predicate Thin(c: Config, d: MarketData, i: nat)
    requires i < |d.bars|
  {
    i > 0 &&
    var mean := Mean(VolumesBefore(d, c.limits.lookback, i));
    mean.Some? && mean.value < c.limits.volumeThreshold
  }

  /** The mean range of the bars before is known and above the threshold. */
  predicate Wide(c: Config, d: MarketData, i: nat)
    requires i < |d.bars|
  {
    i > 0 && d.columns.high && d.columns.low &&
    var mean := Mean(RangesBefore(d, c.limits.lookback, i));
    mean.Some? && mean.value > c.limits.spreadThreshold
  }

  /** The limit of an order: from the close before the bar, away by the buffer, rounded to the price grid. */
  function LimitAt(c: Config, d: MarketData, i: nat, isBuySide: bool): real
    requires 0 < i < |d.bars|
  {
    var before := d.bars[i - 1].close;
    var buffer := Buffer(c.market, before, c.limits.priceBuffer);
    RoundLimitPrice(c.market,
                    if isBuySide then before + buffer else if before - buffer > 0.0 then before - buffer else 0.0,
                    isBuySide)
  }

  /** The price that decides the fill: for a thin symbol the close, else the low for a buy and the high for a
      sell; the close stands in for a missing column. */
  function Decisive(c: Config, d: MarketData, i: nat, isBuySide: bool): Option<real>
    requires i < |d.bars|
  {
    var b := d.bars[i];
    if Thin(c, d, i) then Some(b.close)
    else if isBuySide then (if d.columns.low then b.low else Some(b.close))
    else if d.columns.high then b.high else Some(b.close)
  }

  predicate RangeKnown(d: MarketData, i: nat)
    requires i < |d.bars|
  {
    (d.columns.high ==> d.bars[i].high.Some?) && (d.columns.low ==> d.bars[i].low.Some?)
  }

  lemma LimitModelSees(c: Config, d: MarketData, i: nat)
    requires c.Valid() && d.Valid() && i < |d.bars|
    ensures
      var m := BuildLimitFill(c, d);
      && m.refPrice[i] == (if i > 0 then Some(d.bars[i - 1].close) else None)
      && m.avgVolume[i] == (if i > 0 then Mean(VolumesBefore(d, c.limits.lookback, i)) else None)
      && m.spread[i] == (if i > 0 && d.columns.high && d.columns.low
                         then Mean(RangesBefore(d, c.limits.lookback, i)) else None)
      && m.high[i] == (if d.columns.high then d.bars[i].high else Some(d.bars[i].close))
      && m.low[i] == (if d.columns.low then d.bars[i].low else Some(d.bars[i].close))
      && m.close[i] == d.bars[i].close
  {
    hide Rolling, Mean;
    if i > 0 {
      RollingVolume(d, c.limits.lookback, i - 1);
      RollingRange(d, c.limits.lookback, i - 1);
    }
  }

  /** Exactly when, and at what price, a signal fills. With a lag and limits in use, a thin or wide-ranging
      symbol with a positive close before fills at its limit if the decisive price of the bar reaches it,
      and not at all if not; everything else fills at the execution price. */
  lemma FillsIff(c: Config, d: MarketData, i: nat)
    requires c.Valid() && d.Valid() && i < |d.bars| && ViewOf(c, d, i).signal != 0
    ensures
      var v := ViewOf(c, d, i);
      var buying := v.signal == 1;
      v.fill ==
        if c.limitOrderFill && c.executionLag > 0 && i > 0 && d.bars[i - 1].close > 0.0
           && (Thin(c, d, i) || Wide(c, d, i)) then
          var decisive := Decisive(c, d, i, buying);
          if RangeKnown(d, i)
             && (if buying then decisive.GetOr(0.0) <= LimitAt(c, d, i, true)
                 else decisive.GetOr(0.0) >= LimitAt(c, d, i, false))
          then Some(LimitAt(c, d, i, buying)) else None
        else Some(v.price)
  {
    hide Rolling, Mean, LaggedForecast, BuildLimitFill, BuildExecutionInputs, Buffer, RoundLimitPrice, VolumesBefore,
         RangesBefore;
    LimitModelSees(c, d, i);
    LimitModelEnabled(c, d);
  }

  lemma LimitModelEnabled(c: Config, d: MarketData)
    requires c.Valid() && d.Valid()
    ensures
      var m := BuildLimitFill(c, d);
      m.enabled == (c.limitOrderFill && c.executionLag > 0) && m.market == c.market && m.limits == c.limits
  {
  }
}
