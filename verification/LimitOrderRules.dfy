/** When an order becomes a limit order, at which price, and whether a bar fills it. */
module LimitOrderRules {
  import opened Wrappers
  import opened TickSize

  datatype Session = OpenSession | CloseSession
  datatype Reason = LowVolume | WideRange

  datatype LimitOrderPlan = LimitOrderPlan(isLimit: bool, limitPrice: real, reasons: seq<Reason>, session: Session)

  function PlanLimitOrder(market: string, isBuySide: bool, currentPrice: real, avgVolume: Option<real>,
                          spreadProxy: Option<real>, volumeThreshold: real, spreadThreshold: real,
                              priceBuffer: real): (plan: LimitOrderPlan)
  {
    var reasons :=
      (if avgVolume.Some? && avgVolume.value < volumeThreshold then [LowVolume] else []) +
      (if spreadProxy.Some? && spreadProxy.value > spreadThreshold then [WideRange] else []);
    if reasons == [] then LimitOrderPlan(false, 0.0, [], OpenSession)
    else
      var session := if LowVolume in reasons then CloseSession else OpenSession;
      var buffer := Buffer(market, currentPrice, priceBuffer);
      var price := if isBuySide then currentPrice + buffer
                   else if currentPrice - buffer > 0.0 then currentPrice - buffer else 0.0;
      LimitOrderPlan(true, RoundLimitPrice(market, price, isBuySide), reasons, session)
  }

  /** The distance a limit price may have: a share of the price, and at least one tick. */
  function Buffer(market: string, currentPrice: real, priceBuffer: real): real {
    var tick := TickOf(market, currentPrice);
    if currentPrice * priceBuffer >= tick then currentPrice * priceBuffer else tick
  }

  function LimitOrderFills(plan: LimitOrderPlan, isBuySide: bool, high: real, low: real, close: real): bool {
    if !plan.isLimit then true
    else
      var (h, l) := if plan.session == CloseSession then (close, close) else (high, low);
      if isBuySide then l <= plan.limitPrice else h >= plan.limitPrice
  }

  lemma BufferCoversTick(market: string, currentPrice: real, priceBuffer: real)
    ensures Buffer(market, currentPrice, priceBuffer) >= TickOf(market, currentPrice)
  {
  }

  /** A planned limit never crosses back over the current price and never leaves the buffer,
      whatever band the current price, the buffered price and the rounded price lie in. */
  lemma LimitWithinBuffer(market: string, isBuySide: bool, currentPrice: real, avgVolume: Option<real>,
                          spreadProxy: Option<real>, volumeThreshold: real, spreadThreshold: real, priceBuffer: real)
    requires currentPrice > 0.0 && priceBuffer >= 0.0
    ensures
      var plan := PlanLimitOrder(market, isBuySide, currentPrice, avgVolume, spreadProxy,
                                 volumeThreshold, spreadThreshold, priceBuffer);
      var buffer := Buffer(market, currentPrice, priceBuffer);
      && (plan.isLimit <==> (avgVolume.Some? && avgVolume.value < volumeThreshold)
                            || (spreadProxy.Some? && spreadProxy.value > spreadThreshold))
      && (plan.isLimit && isBuySide ==> currentPrice <= plan.limitPrice <= currentPrice + buffer)
      && (plan.isLimit && !isBuySide ==> currentPrice - buffer <= plan.limitPrice <= currentPrice)
      && (plan.isLimit && plan.limitPrice != 0.0 ==> OnGrid(market, plan.limitPrice))
  {
    hide Buffer, JpBandFrom, BandTick, WholeMultiple, FloorTo, CeilTo;
    var buffer := Buffer(market, currentPrice, priceBuffer);
    BufferCoversTick(market, currentPrice, priceBuffer);
    var tick := TickOf(market, currentPrice);
    var price := if isBuySide then currentPrice + buffer else currentPrice - buffer;
    if price > 0.0 {
      RoundedOnGrid(market, price, isBuySide);
      var newTick := TickOf(market, price);
      if newTick != tick {
        if isBuySide { CurrentBelowBand(currentPrice, price); } else { CurrentAboveBand(currentPrice, price); }
      }
    }
  }

  /** The limit goes as far as the larger of the buffer's share of the price and one tick of the price
      allows: no grid price that a buy could still pay lies above it and none that a sell could still take
      lies below it; a sell whose buffer covers the whole price has no limit but zero. */
  lemma LimitIsFarthest(market: string, isBuySide: bool, currentPrice: real, avgVolume: Option<real>,
                        spreadProxy: Option<real>, volumeThreshold: real, spreadThreshold: real, priceBuffer: real,
                        g: real)
    requires currentPrice > 0.0 && priceBuffer >= 0.0 && g > 0.0 && OnGrid(market, g)
    ensures
      var plan := PlanLimitOrder(market, isBuySide, currentPrice, avgVolume, spreadProxy,
                                 volumeThreshold, spreadThreshold, priceBuffer);
      var share, tick := currentPrice * priceBuffer, TickOf(market, currentPrice);
      var reach := if share > tick then share else tick;
      && (plan.isLimit && isBuySide && g <= currentPrice + reach ==> g <= plan.limitPrice)
      && (plan.isLimit && !isBuySide && g >= currentPrice - reach > 0.0 ==> plan.limitPrice <= g)
      && (plan.isLimit && !isBuySide && currentPrice - reach <= 0.0 ==> plan.limitPrice == 0.0)
  {
    hide JpBandFrom, BandTick, WholeMultiple, FloorTo, CeilTo, TickOf, OnGrid;
    var buffer := Buffer(market, currentPrice, priceBuffer);
    var price := if isBuySide then currentPrice + buffer else currentPrice - buffer;
    if price > 0.0 { RoundingIsNearestGridPrice(market, price, isBuySide, g); }
  }

  lemma CurrentBelowBand(currentPrice: real, price: real)
    requires 0.0 < currentPrice <= price && JpTick(currentPrice) != JpTick(price)
    ensures currentPrice <= FloorTo(price, JpTick(price) as real)
  {
    OtherBand(price, currentPrice);
  }

  lemma CurrentAboveBand(currentPrice: real, price: real)
    requires 0.0 < price <= currentPrice && JpTick(currentPrice) != JpTick(price)
    ensures CeilTo(price, JpTick(price) as real) <= currentPrice
  {
    OtherBand(price, currentPrice);
  }
}
