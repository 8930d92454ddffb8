/** What a simulated bar may use: price columns, lagged signals, rolling averages, lagged
    forecasts and the limit-fill price. As in the source, every input is built as a whole
    series first and read bar by bar afterwards. None stands for a missing value. */
module BacktestInputs {
  import opened Execution
  import opened LimitOrderRules
  import opened PositionSizing
  import opened Wrappers

  datatype Bar = Bar(open: real, high: Option<real>, low: Option<real>, close: real,
                     volume: Option<real>, atr: Option<real>, atrLag1: Option<real>)

  /** Which optional columns the price table has. */
  datatype Columns = Columns(open: bool, high: bool, low: bool, volume: bool, atr: bool, atrLag1: bool)

  /** A price table with its signals and predictions on the same dates, and the closes of earlier
      dates that the movement forecast may use. */
  datatype MarketData = MarketData(columns: Columns, bars: seq<Bar>, signal: seq<Option<int>>,
                                   pred: Option<seq<Option<real>>>, earlierCloses: seq<real>)
  {
    predicate Valid() {
      |signal| == |bars| && (pred.Some? ==> |pred.value| == |bars|)
    }
  }

  datatype LimitSettings = LimitSettings(volumeThreshold: real, spreadThreshold: real, priceBuffer: real, lookback: nat)

  /** How the daily movement is forecast: the sample deviation of the returns of a window, if it has
      enough of them. The logarithm and the square root are given functions. */
  datatype Forecast = Forecast(window: nat, minObservations: nat, logReturn: (real, real) -> real, root: real -> real)

  datatype Config = Config(
    initialCash: real, execution: ExecutionModel, stopLossPct: Option<real>, takeProfitPct: Option<real>,
    sizing: SizingConfig, enableShort: bool, executionLag: nat, market: string, limitOrderFill: bool,
    limits: LimitSettings, sizeParams: Option<VolatilityParams>, stopParams: Option<VolatilityParams>,
    sizeForecast: Forecast, stopForecast: Forecast)
  {
    predicate Valid() {
      execution.Usable() && sizing.Valid() && limits.lookback >= 1
    }
  }

  const AVG_VOL_WINDOW := 20

  // ----- series operations -----

  function Sum(xs: seq<Option<real>>): real {
    if xs == [] then 0.0 else Sum(xs[..|xs| - 1]) + xs[|xs| - 1].GetOr(0.0)
  }

  function Count(xs: seq<Option<real>>): nat {
    if xs == [] then 0 else Count(xs[..|xs| - 1]) + (if xs[|xs| - 1].Some? then 1 else 0)
  }

  /** Mean of the values present; None when there are none. */
  function Mean(xs: seq<Option<real>>): Option<real> {
    if Count(xs) == 0 then None else Some(Sum(xs) / Count(xs) as real)
  }

  /** Mean of the last `window` values up to and including each position. */
  function Rolling(xs: seq<Option<real>>, window: nat): (r: seq<Option<real>>)
    ensures |r| == |xs|
  {
    seq(|xs|, i requires 0 <= i < |xs| => Mean(xs[(if i + 1 >= window then i + 1 - window else 0)..i + 1]))
  }

  // ----- columns -----

  function Closes(d: MarketData): (r: seq<real>)
    ensures |r| == |d.bars|
  {
    seq(|d.bars|, i requires 0 <= i < |d.bars| => d.bars[i].close)
  }

  function PresentCloses(d: MarketData): (r: seq<Option<real>>)
    ensures |r| == |d.bars|
  {
    seq(|d.bars|, i requires 0 <= i < |d.bars| => Some(d.bars[i].close))
  }

  function Volumes(d: MarketData): (r: seq<Option<real>>)
    ensures |r| == |d.bars|
  {
    seq(|d.bars|, i requires 0 <= i < |d.bars| => if d.columns.volume then d.bars[i].volume else None)
  }

  function Highs(d: MarketData): (r: seq<Option<real>>)
    ensures |r| == |d.bars|
  {
    seq(|d.bars|, i requires 0 <= i < |d.bars| => if d.columns.high then d.bars[i].high else Some(d.bars[i].close))
  }

  function Lows(d: MarketData): (r: seq<Option<real>>)
    ensures |r| == |d.bars|
  {
    seq(|d.bars|, i requires 0 <= i < |d.bars| => if d.columns.low then d.bars[i].low else Some(d.bars[i].close))
  }

  function AtrColumn(d: MarketData): (r: seq<Option<real>>)
    ensures |r| == |d.bars|
  {
    seq(|d.bars|, i requires 0 <= i < |d.bars| => d.bars[i].atr)
  }

  /** The bar's range as a share of its close. */
  function Ranges(d: MarketData): (r: seq<Option<real>>)
    ensures |r| == |d.bars|
  {
    seq(|d.bars|, i requires 0 <= i < |d.bars| =>
      if d.bars[i].high.Some? && d.bars[i].low.Some? && d.bars[i].close != 0.0
      then Some((d.bars[i].high.value - d.bars[i].low.value) / d.bars[i].close) else None)
  }

  // ----- execution inputs -----

  datatype ExecutionInputs = ExecutionInputs(price: seq<real>, avgVol: seq<Option<real>>, signal: seq<Option<int>>,
                                             pred: seq<Option<real>>, atr: seq<Option<real>>)
  {
    predicate Covers(n: nat) {
      |price| == n && |avgVol| == n && |signal| == n && |pred| == n && |atr| == n
    }
  }

  function Missing<T>(n: nat): (r: seq<Option<T>>)
    ensures |r| == n
  {
    seq(n, _ => None)
  }

  /** With a lag, only values known at the opening of the bar: signals and predictions moved by the
      lag, average volume and ATR of the bar before. Without a lag, the bar's own values. */
  function BuildExecutionInputs(d: MarketData, lag: nat): (r: ExecutionInputs)
    requires d.Valid()
    ensures r.Covers(|d.bars|)
  {
    var n := |d.bars|;
    var avgVol := Rolling(Volumes(d), AVG_VOL_WINDOW);
    var pred := if d.pred.Some? then d.pred.value else Missing(n);
    if lag > 0 then
      ExecutionInputs(
        seq(n, i requires 0 <= i < n => if d.columns.open then d.bars[i].open else d.bars[i].close),
        Shift(avgVol, 1),
        Shift(d.signal, lag),
        Shift(pred, lag),
        if d.columns.atrLag1 then seq(n, i requires 0 <= i < n => d.bars[i].atrLag1)
        else if d.columns.atr then Shift(AtrColumn(d), 1)
        else Missing(n))
    else
      ExecutionInputs(Closes(d), avgVol, d.signal, pred, if d.columns.atr then AtrColumn(d) else Missing(n))
  }

  /** The return into each position; None next to a close that is not positive. */
  function LogReturns(f: Forecast, closes: seq<real>): (r: seq<Option<real>>)
    ensures |r| == |closes|
  {
    seq(|closes|, i requires 0 <= i < |closes| =>
      if i > 0 && closes[i] > 0.0 && closes[i - 1] > 0.0 then Some(f.logReturn(closes[i], closes[i - 1])) else None)
  }

  function SquaredDistances(xs: seq<Option<real>>, mean: real): real {
    if xs == [] then 0.0
    else
      var last := xs[|xs| - 1];
      SquaredDistances(xs[..|xs| - 1], mean) + (if last.Some? then (last.value - mean) * (last.value - mean) else 0.0)
  }

  /** The sample deviation of the values present, with one degree of freedom less than there are values. */
  function Deviation(f: Forecast, xs: seq<Option<real>>): Option<real> {
    var n := Count(xs);
    if n < f.minObservations || n < 2 then None
    else Some(f.root(SquaredDistances(xs, Sum(xs) / n as real) / (n - 1) as real))
  }

  /** The forecast at each close, from the window of returns up to it. */
  function ForecastSeries(f: Forecast, closes: seq<real>): (r: seq<Option<real>>)
    ensures |r| == |closes|
  {
    var logReturns := LogReturns(f, closes);
    seq(|closes|, i requires 0 <= i < |closes| =>
      Deviation(f, logReturns[(if i + 1 >= f.window then i + 1 - f.window else 0)..i + 1]))
  }

  /** The forecast usable at each bar: the whole series, earlier closes included, moved by one and read
      at the bars of the table. */
  function LaggedForecast(d: MarketData, f: Forecast): (r: seq<Option<real>>)
    ensures |r| == |d.bars|
  {
    Shift(ForecastSeries(f, d.earlierCloses + Closes(d)), 1)[|d.earlierCloses|..]
  }

  // ----- limit fills -----

  datatype LimitFillModel = LimitFillModel(
    market: string, enabled: bool, limits: LimitSettings, refPrice: seq<Option<real>>,
    avgVolume: seq<Option<real>>, spread: seq<Option<real>>,
    high: seq<Option<real>>, low: seq<Option<real>>, close: seq<real>)
  {
    predicate Covers(n: nat) {
      |refPrice| == n && |avgVolume| == n && |spread| == n && |high| == n && |low| == n && |close| == n
    }

    /** The price of a signal's fill at bar i, or None when the limit is not reached. */
    function FillPrice(i: nat, isBuySide: bool, execPrice: real): Option<real>
      requires Covers(|close|) && i < |close|
    {
      if !enabled || refPrice[i].None? || refPrice[i].value <= 0.0 then Some(execPrice)
      else
        var plan := PlanLimitOrder(market, isBuySide, refPrice[i].value, avgVolume[i], spread[i],
                                   limits.volumeThreshold, limits.spreadThreshold, limits.priceBuffer);
        if !plan.isLimit then Some(execPrice)
        else if high[i].None? || low[i].None? then None
        else if LimitOrderFills(plan, isBuySide, high[i].value, low[i].value, close[i]) then Some(plan.limitPrice)
        else None
    }
  }

  /** Average volume and range of the bars before, and the close before as the reference price. */
  function BuildLimitFill(c: Config, d: MarketData): (r: LimitFillModel)
    requires c.Valid()
    ensures r.Covers(|d.bars|)
  {
    var n := |d.bars|;
    LimitFillModel(
      c.market, c.limitOrderFill && c.executionLag > 0, c.limits,
      Shift(PresentCloses(d), 1),
      Shift(Rolling(Volumes(d), c.limits.lookback), 1),
      if d.columns.high && d.columns.low then Shift(Rolling(Ranges(d), c.limits.lookback), 1) else Missing(n),
      Highs(d), Lows(d), Closes(d))
  }

  // ----- one bar -----

  /** Everything the simulation reads at one bar before its close. */
  datatype BarView = BarView(bar: nat, price: real, avgVol: real, signal: int, fill: Option<real>,
                             pred: Option<real>, atr: Option<real>,
                             sizeForecast: Option<real>, stopForecast: Option<real>)

  function ViewOf(c: Config, d: MarketData, i: nat): (v: BarView)
    requires c.Valid() && d.Valid() && i < |d.bars|
    ensures v.bar == i
  {
    var inputs := BuildExecutionInputs(d, c.executionLag);
    var limitFill := BuildLimitFill(c, d);
    var signal := inputs.signal[i].GetOr(0);
    BarView(i, inputs.price[i], inputs.avgVol[i].GetOr(0.0), signal,
            if signal == 0 then Some(inputs.price[i]) else limitFill.FillPrice(i, signal == 1, inputs.price[i]),
            inputs.pred[i], inputs.atr[i],
            LaggedForecast(d, c.sizeForecast)[i], LaggedForecast(d, c.stopForecast)[i])
  }

  /** What the simulation reads, bar by bar: the views, and the closes that follow them. */
  datatype Tape = Tape(views: seq<BarView>, closes: seq<real>) {
    predicate Valid() {
      |closes| == |views| && forall i :: 0 <= i < |views| ==> views[i].bar == i
    }
  }

  function TapeOf(c: Config, d: MarketData): (r: Tape)
    requires c.Valid() && d.Valid()
    ensures r.Valid() && |r.views| == |d.bars|
    ensures forall i :: 0 <= i < |d.bars| ==> r.views[i] == ViewOf(c, d, i) && r.closes[i] == d.bars[i].close
  {
    Tape(seq(|d.bars|, i requires 0 <= i < |d.bars| => ViewOf(c, d, i)), Closes(d))
  }
}
