/** Limit prices rounded to the exchange's price grid. A price is on the grid when it is a
    whole multiple of the tick of the band that the price itself lies in. */
module TickSize {
  import opened Arithmetic

  /** (highest price of the band, tick); above the last band the tick is JP_TICK_TOP. */
  const JP_TICK_TABLE: seq<(int, int)> := [
    (3_000, 1), (5_000, 5), (30_000, 10), (50_000, 50), (300_000, 100), (500_000, 500),
    (3_000_000, 1_000), (5_000_000, 5_000), (30_000_000, 10_000), (50_000_000, 50_000)
  ]
  const JP_TICK_TOP := 100_000
  const US_TICK := 0.01

  /** The table search: the first band, from `i` on, whose upper end is not below the price. */
  function JpBandFrom(i: nat, price: real): (b: nat)
    requires i <= |JP_TICK_TABLE|
    ensures i <= b <= |JP_TICK_TABLE|
    ensures b < |JP_TICK_TABLE| ==> price <= JP_TICK_TABLE[b].0 as real
    ensures forall j :: i <= j < b ==> JP_TICK_TABLE[j].0 as real < price
    decreases |JP_TICK_TABLE| - i
  {
    if i == |JP_TICK_TABLE| || price <= JP_TICK_TABLE[i].0 as real then i else JpBandFrom(i + 1, price)
  }

  function BandTick(b: nat): (t: int)
    requires b <= |JP_TICK_TABLE|
    ensures t > 0
  {
    if b < |JP_TICK_TABLE| then JP_TICK_TABLE[b].1 else JP_TICK_TOP
  }

  function JpTick(price: real): (t: int)
    ensures t > 0
  {
    BandTick(JpBandFrom(0, price))
  }

  function TickOf(market: string, price: real): (t: real)
    ensures t > 0.0
  {
    if market != "jp" then US_TICK else JpTick(price) as real
  }

  /** x is a whole number of steps t. */
  predicate WholeMultiple(x: real, t: real)
    requires t > 0.0
  {
    (x / t).Floor as real * t == x
  }

  predicate OnGrid(market: string, price: real) {
    WholeMultiple(price, TickOf(market, price))
  }

  function FloorTo(x: real, t: real): (f: real)
    requires t > 0.0
    ensures WholeMultiple(f, t)
    ensures f <= x < f + t
  {
    FloorToBounds(x, t);
    var k := (x / t).Floor;
    var f := k as real * t;
    IsWholeMultiple(f, k, t);
    f
  }

  function CeilTo(x: real, t: real): (c: real)
    requires t > 0.0
    ensures WholeMultiple(c, t)
    ensures c - t < x <= c
  {
    FloorToBounds(x, t);
    var f := FloorTo(x, t);
    if f == x then f
    else
      IsWholeMultiple(f + t, (x / t).Floor + 1, t);
      f + t
  }

  function RoundLimitPrice(market: string, price: real, isBuySide: bool): real {
    if price <= 0.0 then 0.0
    else
      var tick := TickOf(market, price);
      var rounded := if isBuySide then FloorTo(price, tick) else CeilTo(price, tick);
      if rounded <= 0.0 then tick else rounded
  }

  lemma IsWholeMultiple(x: real, k: int, t: real)
    requires t > 0.0 && x == k as real * t
    ensures WholeMultiple(x, t) && (x / t).Floor == k
  {
    assert x / t == k as real;
  }

  lemma FloorToBounds(x: real, t: real)
    requires t > 0.0
    ensures var k := (x / t).Floor;
            && k as real * t <= x < k as real * t + t
            && (k + 1) as real * t == k as real * t + t
  {
    var k := (x / t).Floor;
    assert x / t * t == x;
    ScaledBetween(k as real, x / t, (k + 1) as real, t, x);
    StepOrder(k, k, t);
  }

  lemma ScaledBetween(lower: real, q: real, upper: real, t: real, x: real)
    requires t > 0.0 && lower <= q < upper && q * t == x
    ensures lower * t <= x < upper * t
  {
    MulMonotone(lower, q, t);
    MulStrict(q, upper, t);
  }

  /** Neighbouring multiples are one step apart. */
  lemma MultiplesApart(x: real, y: real, t: real)
    requires t > 0.0 && WholeMultiple(x, t) && WholeMultiple(y, t)
    requires x < y + t
    ensures x <= y
  {
    var j, k := (x / t).Floor, (y / t).Floor;
    assert x == j as real * t && y == k as real * t;
    if j >= k + 1 {
      StepOrder(k + 1, j, t);
    } else {
      StepOrder(j, k, t);
    }
  }

  lemma StepOrder(j: int, k: int, t: real)
    requires t > 0.0 && j <= k
    ensures j as real * t <= k as real * t
    ensures (j as real) * t + t == (j + 1) as real * t
  {
  }

  /** Both ends of a band are multiples of its tick. */
  lemma BandEnds(b: nat)
    requires b <= |JP_TICK_TABLE|
    ensures b < |JP_TICK_TABLE| ==> WholeMultiple(JP_TICK_TABLE[b].0 as real, BandTick(b) as real)
    ensures b > 0 ==> WholeMultiple(JP_TICK_TABLE[b - 1].0 as real, BandTick(b) as real)
  {
    if b < |JP_TICK_TABLE| {
      var u := [3_000, 1_000, 3_000, 1_000, 3_000, 1_000, 3_000, 1_000, 3_000, 1_000][b];
      assert JP_TICK_TABLE[b].0 == u * BandTick(b);
      IsWholeMultiple(JP_TICK_TABLE[b].0 as real, u, BandTick(b) as real);
    }
    if b > 0 {
      var l := [600, 500, 600, 500, 600, 500, 600, 500, 600, 500][b - 1];
      assert JP_TICK_TABLE[b - 1].0 == l * BandTick(b);
      IsWholeMultiple(JP_TICK_TABLE[b - 1].0 as real, l, BandTick(b) as real);
    }
  }

  /** A price between the ends of band b has the tick of band b. */
  lemma InBand(price: real, b: nat)
    requires b <= |JP_TICK_TABLE|
    requires b > 0 ==> JP_TICK_TABLE[b - 1].0 as real < price
    requires b < |JP_TICK_TABLE| ==> price <= JP_TICK_TABLE[b].0 as real
    ensures JpBandFrom(0, price) == b
  {
    TableAscends();
  }

  lemma TableAscends()
    ensures forall i, j :: 0 <= i < j < |JP_TICK_TABLE| ==> JP_TICK_TABLE[i].0 < JP_TICK_TABLE[j].0
  {
  }

  /** The rounded price of a positive price is on the grid of its own band, also when rounding
      moved it into another band. */
  lemma RoundedOnGrid(market: string, price: real, isBuySide: bool)
    requires price > 0.0
    ensures RoundLimitPrice(market, price, isBuySide) > 0.0
    ensures OnGrid(market, RoundLimitPrice(market, price, isBuySide))
  {
    hide WholeMultiple, JpBandFrom;
    var tick := TickOf(market, price);
    var r := RoundLimitPrice(market, price, isBuySide);
    IsWholeMultiple(tick, 1, tick);
    if market == "jp" {
      var b := JpBandFrom(0, price);
      BandEnds(b);
      if b > 0 { MultiplesApart(JP_TICK_TABLE[b - 1].0 as real, FloorTo(price, tick), tick); }
      if b < |JP_TICK_TABLE| { MultiplesApart(CeilTo(price, tick), JP_TICK_TABLE[b].0 as real, tick); }
      if b > 0 && r == JP_TICK_TABLE[b - 1].0 as real {
        TableAscends();
        InBand(r, b - 1);
        BandEnds(b - 1);
      } else {
        if b < |JP_TICK_TABLE| && r == tick { assert tick <= JP_TICK_TABLE[b].0 as real; }
        InBand(r, b);
      }
    }
  }

  /** Rounding is idempotent, whichever side the second rounding is for. */
  lemma RoundingIdempotent(market: string, price: real, isBuySide: bool, again: bool)
    ensures
      var r := RoundLimitPrice(market, price, isBuySide);
      RoundLimitPrice(market, r, again) == r
  {
    if price > 0.0 {
      RoundedOnGrid(market, price, isBuySide);
      var r := RoundLimitPrice(market, price, isBuySide);
      var tick := TickOf(market, r);
      MultiplesApart(r, FloorTo(r, tick), tick);
      MultiplesApart(CeilTo(r, tick), r, tick);
    }
  }

  /** What rounding means, band borders included: a buy gets the highest grid price that is not
      above the price, a sell the lowest grid price that is not below it. Only a buy below the
      smallest tick has no grid price to go down to; it gets the tick itself. */
  lemma RoundingIsNearestGridPrice(market: string, price: real, isBuySide: bool, g: real)
    requires price > 0.0 && g > 0.0 && OnGrid(market, g)
    ensures
      var r := RoundLimitPrice(market, price, isBuySide);
      if isBuySide then (r <= price || (r == TickOf(market, price) && price < r)) && (g <= price ==> g <= r)
      else price <= r && (price <= g ==> r <= g)
  {
    var tick := TickOf(market, price);
    var f, c := FloorTo(price, tick), CeilTo(price, tick);
    if TickOf(market, g) == tick {
      if g <= price { MultiplesApart(g, f, tick); }
      if price <= g { MultiplesApart(c, g, tick); }
    } else {
      OtherBand(price, g);
    }
  }

  /** A whole band lies between two prices of different ticks, so rounding cannot pass the border. */
  lemma OtherBand(price: real, g: real)
    requires price > 0.0 && g > 0.0 && JpTick(g) != JpTick(price)
    ensures g <= price ==> g <= FloorTo(price, JpTick(price) as real)
    ensures price <= g ==> CeilTo(price, JpTick(price) as real) <= g
  {
    var tick := JpTick(price) as real;
    var b, bg := JpBandFrom(0, price), JpBandFrom(0, g);
    TableAscends();
    BandEnds(b);
    if bg < b {
      assert g <= JP_TICK_TABLE[bg].0 as real <= JP_TICK_TABLE[b - 1].0 as real;
      MultiplesApart(JP_TICK_TABLE[b - 1].0 as real, FloorTo(price, tick), tick);
    } else {
      assert b < bg;
      assert JP_TICK_TABLE[b].0 as real < g;
      MultiplesApart(CeilTo(price, tick), JP_TICK_TABLE[b].0 as real, tick);
    }
  }
}
