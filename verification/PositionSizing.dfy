/** How many shares an entry takes: the sizing modes, the cap to the cash at hand, and the
    optional scaling of the quantity and the stop by a forecast of the daily price movement. */
module PositionSizing {
  import opened Arithmetic
  import opened Execution
  import opened Wrappers

  datatype SizingMode = Full | Fixed | Confidence | Atr

  datatype SizingConfig = SizingConfig(
    mode: SizingMode, positionFraction: real, atrRiskPct: real, atrMultiplier: real,
    atrMinFraction: real, atrMaxFraction: real)
  {
    /** The risk-based quantity divides by a multiple of the ATR. */
    predicate Valid() {
      mode == Atr ==> atrMultiplier != 0.0
    }
  }

  function Min(a: real, b: real): real { if b < a then b else a }

  function Max(a: real, b: real): real { if b > a then b else a }

  function Abs(a: real): real { if a < 0.0 then -a else a }

  /** Conversion to an integer truncates toward zero. */
  function Truncate(x: real): (i: int)
    ensures x >= 0.0 ==> i as real <= x < i as real + 1.0
    ensures x < 0.0 ==> i as real - 1.0 < x <= i as real
  {
    if x >= 0.0 then x.Floor else -((-x).Floor)
  }

  function Share(cash: real, fraction: real): real {
    cash * fraction
  }

  /** How far the price may move against the position. */
  function StopDistance(c: SizingConfig, atr: real): real {
    atr * c.atrMultiplier
  }

  /** The quantity that the sizing mode asks for before lots and cash are considered.
      A missing prediction or ATR falls back to the full amount of cash. */
  function RequestedQty(c: SizingConfig, cash: real, unitCost: real, pred: Option<real>, atr: Option<real>): int
    requires c.Valid() && unitCost > 0.0
  {
    if c.mode == Fixed then (Share(cash, c.positionFraction) / unitCost).Floor
    else if c.mode == Confidence && pred.Some? then
      (Share(cash, 0.2 + Min(Abs(pred.value) * 50.0, 1.0) * 0.8) / unitCost).Floor
    else if c.mode == Atr && atr.Some? && atr.value > 0.0 then
      NonZeroProduct(atr.value, c.atrMultiplier);
      AtrRequest(StopDistance(c, atr.value), Share(cash, c.atrRiskPct),
                 Share(cash, Min(c.atrMinFraction, c.atrMaxFraction)),
                 Share(cash, Max(c.atrMinFraction, c.atrMaxFraction)), cash, unitCost)
    else (cash / unitCost).Floor
  }

  lemma NonZeroProduct(a: real, b: real)
    requires a > 0.0 && b != 0.0
    ensures a * b != 0.0
  {
    if b > 0.0 { PositiveProduct(a, b); } else { PositiveProduct(a, -b); assert a * -b == -(a * b); }
  }

  function AtrRequest(stop: real, budget: real, minAmount: real, maxAmount: real, cash: real, unitCost: real): int
    requires stop != 0.0 && unitCost > 0.0
  {
    AtrQty(budget / stop, (minAmount / unitCost).Floor, (maxAmount / unitCost).Floor, (cash / unitCost).Floor)
  }

  function AtrQty(byRisk: real, minQty: int, maxByFraction: int, affordable: int): int {
    var cap := if maxByFraction < affordable then maxByFraction else affordable;
    if cap <= 0 then 0
    else
      var qty := Truncate(Min(byRisk, cap as real));
      var floorQty := if minQty > cap then cap else minQty;
      if qty > floorQty then qty else floorQty
  }

  /** The bounds of a risk-based quantity: it costs no more than the cash and the largest share of it,
      and it loses no more than the budget when the price falls by the stop distance or costs no more
      than the smallest share. */
  predicate WithinRisk(qty: int, cash: real, unitCost: real, stop: real, budget: real, minAmount: real,
                       maxAmount: real) {
    && qty >= 0
    && qty as real * unitCost <= maxAmount && qty as real * unitCost <= cash
    && (qty as real * stop <= budget || qty as real * unitCost <= minAmount)
  }

  lemma AtrWithinRisk(cash: real, unitCost: real, stop: real, budget: real, minAmount: real, maxAmount: real,
                      byRisk: real, minQty: int, maxQty: int, affordable: int, qty: nat)
    requires unitCost > 0.0 && stop > 0.0 && cash >= 0.0 && budget >= 0.0 && 0.0 <= minAmount <= maxAmount
    requires byRisk == budget / stop && minQty == (minAmount / unitCost).Floor
    requires maxQty == (maxAmount / unitCost).Floor && affordable == (cash / unitCost).Floor
    ensures AtrQty(byRisk, minQty, maxQty, affordable) >= 0
    ensures qty <= AtrQty(byRisk, minQty, maxQty, affordable) <==>
              WithinRisk(qty, cash, unitCost, stop, budget, minAmount, maxAmount)
  {
    NoneIsPaid(minAmount, unitCost);
    NoneIsPaid(maxAmount, unitCost);
    NoneIsPaid(cash, unitCost);
    NoneIsPaid(budget, stop);
    AtrQtyBounds(byRisk, minQty, maxQty, affordable, qty);
    BoundsPay(qty, cash, unitCost, stop, budget, minAmount, maxAmount);
  }

  /** In the ATR mode the request is the largest quantity within the bounds: losing at most the risk
      budget over the stop distance and spending at most the largest share of the cash, with the
      smallest share always allowed. */
  lemma AtrRequestWithinRisk(stop: real, budget: real, minAmount: real, maxAmount: real, cash: real, unitCost: real,
                             qty: nat)
    requires unitCost > 0.0 && stop > 0.0 && cash >= 0.0 && budget >= 0.0 && 0.0 <= minAmount <= maxAmount
    ensures AtrRequest(stop, budget, minAmount, maxAmount, cash, unitCost) >= 0
    ensures qty <= AtrRequest(stop, budget, minAmount, maxAmount, cash, unitCost)
            <==> WithinRisk(qty, cash, unitCost, stop, budget, minAmount, maxAmount)
  {
    AtrWithinRisk(cash, unitCost, stop, budget, minAmount, maxAmount, budget / stop, (minAmount / unitCost).Floor,
                  (maxAmount / unitCost).Floor, (cash / unitCost).Floor, qty);
  }

  lemma NoneIsPaid(amount: real, unitCost: real)
    requires unitCost > 0.0 && amount >= 0.0
    ensures (amount / unitCost).Floor >= 0
  {
    FloorPays(amount, unitCost, 0);
  }

  lemma BoundsPay(qty: nat, cash: real, unitCost: real, stop: real, budget: real, minAmount: real, maxAmount: real)
    requires unitCost > 0.0 && stop > 0.0
    ensures WithinRisk(qty, cash, unitCost, stop, budget, minAmount, maxAmount) <==>
              && qty <= (maxAmount / unitCost).Floor && qty <= (cash / unitCost).Floor
              && (qty <= (budget / stop).Floor || qty <= (minAmount / unitCost).Floor)
  {
    FloorPays(minAmount, unitCost, qty);
    FloorPays(maxAmount, unitCost, qty);
    FloorPays(cash, unitCost, qty);
    FloorPays(budget, stop, qty);
  }

  lemma AtrQtyBounds(byRisk: real, minQty: int, maxByFraction: int, affordable: int, qty: nat)
    requires byRisk.Floor >= 0 && minQty >= 0 && maxByFraction >= 0 && affordable >= 0
    ensures AtrQty(byRisk, minQty, maxByFraction, affordable) >= 0
    ensures qty <= AtrQty(byRisk, minQty, maxByFraction, affordable) <==>
              qty <= maxByFraction && qty <= affordable && (qty <= byRisk.Floor || qty <= minQty)
  {
  }

  /** A number of shares is within the whole part of what an amount buys exactly when the amount pays it. */
  lemma FloorPays(amount: real, unitCost: real, qty: int)
    requires unitCost > 0.0
    ensures qty <= (amount / unitCost).Floor <==> qty as real * unitCost <= amount
  {
    MulOrder(qty as real, amount / unitCost, unitCost);
    assert amount / unitCost * unitCost == amount;
  }

  /** Lower the quantity to what the cash pays for at the full, size-dependent cost. */
  function CapToCash(qty: int, cash: real, price: real, volume: real, m: ExecutionModel): int
    requires m.Usable()
  {
    if qty > 0 && m.BuyCost(qty, price, volume) > cash then
      var affordable := m.MaxAffordableQty(cash, price, volume);
      if affordable < qty then affordable else qty
    else qty
  }

  function PositionQty(c: SizingConfig, cash: real, price: real, m: ExecutionModel, pred: Option<real>,
                       atr: Option<real>, volume: real): int
    requires c.Valid() && m.Usable()
  {
    var unitCost := m.UnitBuyCost(price);
    if unitCost <= 0.0 || cash <= 0.0 then 0
    else
      var qty := CapToCash(m.RoundToLot(RequestedQty(c, cash, unitCost, pred, atr)), cash, price, volume, m);
      if qty > 0 then qty else 0
  }

  datatype VolatilityParams = VolatilityParams(
    targetDailyVolatility: real, minScale: real, maxScale: real,
    stopVolatilityMultiple: real, maxStopLossPct: real)
  {
    predicate Valid() {
      targetDailyVolatility > 0.0 && 0.0 < minScale <= maxScale && stopVolatilityMultiple > 0.0
      && 0.0 < maxStopLossPct < 1.0
    }
  }

  /** Inverse to the forecast, within the configured range; 1 without a usable forecast. */
  function PositionScale(p: VolatilityParams, forecast: Option<real>): real {
    if forecast.None? || forecast.value <= 0.0 then 1.0
    else Max(p.minScale, Min(p.targetDailyVolatility / forecast.value, p.maxScale))
  }

  function ScaledQty(p: VolatilityParams, forecast: Option<real>, qty: int): int {
    Truncate(qty as real * PositionScale(p, forecast))
  }

  function ScaleQty(p: Option<VolatilityParams>, forecast: Option<real>, qty: int, cash: real, price: real,
                    volume: real, m: ExecutionModel): int
    requires m.Usable()
  {
    if p.None? || qty <= 0 then qty
    else CapToCash(m.RoundToLot(ScaledQty(p.value, forecast, qty)), cash, price, volume, m)
  }

  function StopLossPct(p: Option<VolatilityParams>, forecast: Option<real>, fixed: Option<real>): Option<real> {
    if p.None? || forecast.None? || forecast.value <= 0.0 then fixed
    else Some(Min(forecast.value * p.value.stopVolatilityMultiple, p.value.maxStopLossPct))
  }

  /** Capping a lot multiple leaves a lot multiple that the cash pays for. With a monotone impact
      the smaller of the request and the affordable quantity is always the affordable one. */
  lemma CapToCashPays(qty: int, cash: real, price: real, volume: real, m: ExecutionModel)
    requires m.Usable() && m.NonNegativeCosts() && m.MonotoneImpact()
    requires qty >= 0 && m.IsLotMultiple(qty) && price > 0.0
    ensures
      var r := CapToCash(qty, cash, price, volume, m);
      && 0 <= r <= qty && m.IsLotMultiple(r)
      && (r > 0 ==> m.BuyCost(r, price, volume) <= cash)
      && forall q :: r < q <= qty && m.IsLotMultiple(q) ==> m.BuyCost(q, price, volume) > cash
  {
    var affordable := m.MaxAffordableQty(cash, price, volume);
    if qty > 0 && m.BuyCost(qty, price, volume) > cash {
      if affordable >= qty {
        m.BuyCostMonotone(qty, affordable, price, volume);
      }
      forall q: int | affordable < q <= qty && m.IsLotMultiple(q)
        ensures m.BuyCost(q, price, volume) > cash
      {
        if m.BuyCost(q, price, volume) <= cash { m.MaxAffordableIsLargest(cash, price, volume, q); }
      }
    }
  }

  /** A quantity an entry may have: a lot multiple whose full cost the cash pays. */
  predicate Payable(qty: int, cash: real, price: real, volume: real, m: ExecutionModel) {
    && qty >= 0 && m.IsLotMultiple(qty)
    && (qty > 0 ==> m.BuyCost(qty, price, volume) <= cash)
  }

  lemma LotsPayable(requested: int, cash: real, price: real, volume: real, m: ExecutionModel)
    requires m.Usable() && m.NonNegativeCosts() && m.MonotoneImpact() && price > 0.0
    ensures Payable(CapToCash(m.RoundToLot(requested), cash, price, volume, m), cash, price, volume, m)
  {
    CapToCashPays(m.RoundToLot(requested), cash, price, volume, m);
  }

  /** A positive unit cost means a positive price. */
  lemma PositivePrice(price: real, m: ExecutionModel)
    requires m.Usable() && m.UnitBuyCost(price) > 0.0
    ensures price > 0.0
  {
    if price <= 0.0 { MulMonotone(price, 0.0, 1.0 + m.costs.feeRate + m.costs.slippageRate); }
  }

  lemma PositionQtyPayable(c: SizingConfig, cash: real, price: real, m: ExecutionModel, pred: Option<real>,
                           atr: Option<real>, volume: real)
    requires c.Valid() && m.Usable() && m.NonNegativeCosts() && m.MonotoneImpact()
    ensures Payable(PositionQty(c, cash, price, m, pred, atr, volume), cash, price, volume, m)
  {
    var unitCost := m.UnitBuyCost(price);
    if unitCost > 0.0 && cash > 0.0 {
      PositivePrice(price, m);
      LotsPayable(RequestedQty(c, cash, unitCost, pred, atr), cash, price, volume, m);
    }
  }

  lemma ScaleQtyPayable(p: Option<VolatilityParams>, forecast: Option<real>, qty: int, cash: real, price: real,
                        volume: real, m: ExecutionModel)
    requires m.Usable() && m.NonNegativeCosts() && m.MonotoneImpact() && (qty > 0 ==> price > 0.0)
    requires Payable(qty, cash, price, volume, m)
    ensures Payable(ScaleQty(p, forecast, qty, cash, price, volume, m), cash, price, volume, m)
  {
    if p.Some? && qty > 0 {
      LotsPayable(ScaledQty(p.value, forecast, qty), cash, price, volume, m);
    }
  }

  /** The entry quantity, scaled or not, is payable; the scale may even raise the quantity. */
  lemma EntryPayable(c: SizingConfig, p: Option<VolatilityParams>, forecast: Option<real>, cash: real, price: real,
                     m: ExecutionModel, pred: Option<real>, atr: Option<real>, volume: real)
    requires c.Valid() && m.Usable() && m.NonNegativeCosts() && m.MonotoneImpact()
    ensures Payable(ScaleQty(p, forecast, PositionQty(c, cash, price, m, pred, atr, volume), cash, price, volume, m),
                    cash, price, volume, m)
  {
    PositionQtyPayable(c, cash, price, m, pred, atr, volume);
    if m.UnitBuyCost(price) > 0.0 { PositivePrice(price, m); }
    ScaleQtyPayable(p, forecast, PositionQty(c, cash, price, m, pred, atr, volume), cash, price, volume, m);
  }

  predicate SpendsAll(c: SizingConfig, pred: Option<real>, atr: Option<real>) {
    || c.mode == Full
    || (c.mode == Confidence && pred.None?)
    || (c.mode == Atr && (atr.None? || atr.value <= 0.0))
  }

  /** In the full mode, and where another mode falls back to it, the entry is the largest payable one. */
  lemma FullBuysMost(c: SizingConfig, cash: real, price: real, m: ExecutionModel, pred: Option<real>,
                     atr: Option<real>, volume: real, other: int)
    requires c.Valid() && m.Usable() && m.NonNegativeCosts() && m.MonotoneImpact() && SpendsAll(c, pred, atr)
    requires price > 0.0 && Payable(other, cash, price, volume, m)
    ensures other <= PositionQty(c, cash, price, m, pred, atr, volume)
  {
    m.UnitCostPositive(price);
    if other > 0 {
      m.FlatCostIsLeast(other, price, volume);
      m.FlatFloorBounds(other, cash, price);
      var rounded := m.RoundToLot((cash / m.UnitBuyCost(price)).Floor);
      m.LotBelow(other, (cash / m.UnitBuyCost(price)).Floor);
      CapToCashPays(rounded, cash, price, volume, m);
    }
  }

  // ----- exactly how much each mode takes -----

  /** A positive number of lots is within a capped request exactly when it is within the request and the cash
      pays its full cost. */
  lemma CappedIff(requested: int, cash: real, price: real, volume: real, m: ExecutionModel, q: int)
    requires m.Usable() && m.NonNegativeCosts() && m.MonotoneImpact() && price > 0.0 && q > 0 && m.IsLotMultiple(q)
    ensures q <= CapToCash(m.RoundToLot(requested), cash, price, volume, m)
            <==> q <= requested && m.BuyCost(q, price, volume) <= cash
  {
    hide ExecutionModel.BuyCost, CapToCash;
    var rounded := m.RoundToLot(requested);
    var capped := CapToCash(rounded, cash, price, volume, m);
    CapToCashPays(rounded, cash, price, volume, m);
    if q <= capped { m.BuyCostMonotone(q, capped, price, volume); }
    if q <= requested { m.LotBelow(q, requested); }
  }

  /** What a mode asks for: at the flat cost, the share of the cash that the fraction or the confidence gives,
      or all of it; in the ATR mode at most the larger share, losing at most the risk budget over the stop
      distance or spending at most the smaller share. */
  predicate AsksFor(c: SizingConfig, q: int, cash: real, unitCost: real, pred: Option<real>, atr: Option<real>) {
    if c.mode == Fixed then q as real * unitCost <= cash * c.positionFraction
    else if c.mode == Confidence && pred.Some? then
      q as real * unitCost <= cash * (0.2 + Min(Abs(pred.value) * 50.0, 1.0) * 0.8)
    else if c.mode == Atr && atr.Some? && atr.value > 0.0 then
      && q as real * unitCost <= cash * Max(c.atrMinFraction, c.atrMaxFraction) && q as real * unitCost <= cash
      && (q as real * (atr.value * c.atrMultiplier) <= cash * c.atrRiskPct
          || q as real * unitCost <= cash * Min(c.atrMinFraction, c.atrMaxFraction))
    else q as real * unitCost <= cash
  }

  /** The settings of the ATR mode are ordinary: a stop distance and shares that are not negative. */
  predicate OrdinaryAtr(c: SizingConfig) {
    c.mode == Atr ==> c.atrMultiplier > 0.0 && c.atrRiskPct >= 0.0 && c.atrMinFraction >= 0.0 && c.atrMaxFraction >= 0.0
  }

  lemma RequestIff(c: SizingConfig, cash: real, unitCost: real, pred: Option<real>, atr: Option<real>, q: nat)
    requires c.Valid() && OrdinaryAtr(c) && unitCost > 0.0 && cash > 0.0
    ensures q <= RequestedQty(c, cash, unitCost, pred, atr) <==> AsksFor(c, q, cash, unitCost, pred, atr)
  {
    hide RequestedQty, AsksFor;
    if c.mode == Confidence && pred.Some? {
      ConfidenceAsks(c, cash, unitCost, pred, atr, q);
    } else if c.mode == Atr && atr.Some? && atr.value > 0.0 {
      AtrAsks(c, cash, unitCost, pred, atr, q);
    } else {
      ShareAsks(c, cash, unitCost, pred, atr, q);
    }
  }

  lemma ShareAsks(c: SizingConfig, cash: real, unitCost: real, pred: Option<real>, atr: Option<real>, q: nat)
    requires c.Valid() && unitCost > 0.0 && !(c.mode == Confidence && pred.Some?)
    requires !(c.mode == Atr && atr.Some? && atr.value > 0.0)
    ensures q <= RequestedQty(c, cash, unitCost, pred, atr) <==> AsksFor(c, q, cash, unitCost, pred, atr)
  {
    if c.mode == Fixed {
      AmountAsks(Share(cash, c.positionFraction), unitCost, q, RequestedQty(c, cash, unitCost, pred, atr));
    } else {
      AmountAsks(cash, unitCost, q, RequestedQty(c, cash, unitCost, pred, atr));
    }
  }

  lemma AmountAsks(amount: real, unitCost: real, q: int, requested: int)
    requires unitCost > 0.0 && requested == (amount / unitCost).Floor
    ensures q <= requested <==> q as real * unitCost <= amount
  {
    FloorPays(amount, unitCost, q);
  }

  lemma ConfidenceAsks(c: SizingConfig, cash: real, unitCost: real, pred: Option<real>, atr: Option<real>, q: nat)
    requires c.mode == Confidence && unitCost > 0.0 && pred.Some?
    ensures q <= RequestedQty(c, cash, unitCost, pred, atr) <==> AsksFor(c, q, cash, unitCost, pred, atr)
  {
    hide Min, Abs;
    AmountAsks(Share(cash, 0.2 + Min(Abs(pred.value) * 50.0, 1.0) * 0.8), unitCost, q,
               RequestedQty(c, cash, unitCost, pred, atr));
  }

  /** The request of the ATR mode is within its risk bounds, which are those that the mode asks for. */
  lemma AtrAsks(c: SizingConfig, cash: real, unitCost: real, pred: Option<real>, atr: Option<real>, q: nat)
    requires c.mode == Atr && c.Valid() && OrdinaryAtr(c) && unitCost > 0.0 && cash > 0.0
    requires atr.Some? && atr.value > 0.0
    ensures q <= RequestedQty(c, cash, unitCost, pred, atr) <==> AsksFor(c, q, cash, unitCost, pred, atr)
  {
    hide AtrRequest, Min, Max;
    AtrRequested(c, cash, unitCost, pred, atr, q);
  }

  lemma AtrRequested(c: SizingConfig, cash: real, unitCost: real, pred: Option<real>, atr: Option<real>, q: nat)
    requires c.mode == Atr && c.Valid() && OrdinaryAtr(c) && unitCost > 0.0 && cash > 0.0
    requires atr.Some? && atr.value > 0.0
    ensures q <= RequestedQty(c, cash, unitCost, pred, atr)
            <==> WithinRisk(q, cash, unitCost, StopDistance(c, atr.value), Share(cash, c.atrRiskPct),
                            Share(cash, Min(c.atrMinFraction, c.atrMaxFraction)),
                            Share(cash, Max(c.atrMinFraction, c.atrMaxFraction)))
  {
    hide WithinRisk, AtrRequest, Min, Max, Share, StopDistance;
    var lower, upper := Min(c.atrMinFraction, c.atrMaxFraction), Max(c.atrMinFraction, c.atrMaxFraction);
    MinBelowMax(c.atrMinFraction, c.atrMaxFraction);
    StopIsPositive(c, atr.value);
    SharesAscend(cash, 0.0, c.atrRiskPct);
    SharesAscend(cash, 0.0, lower);
    SharesAscend(cash, lower, upper);
    AtrRequestWithinRisk(StopDistance(c, atr.value), Share(cash, c.atrRiskPct), Share(cash, lower), Share(cash, upper),
                         cash, unitCost, q);
  }

  lemma StopIsPositive(c: SizingConfig, atr: real)
    requires atr > 0.0 && c.atrMultiplier > 0.0
    ensures StopDistance(c, atr) > 0.0
  {
    PositiveProduct(atr, c.atrMultiplier);
  }

  lemma MinBelowMax(a: real, b: real)
    requires a >= 0.0 && b >= 0.0
    ensures 0.0 <= Min(a, b) <= Max(a, b)
  {
  }

  lemma SharesAscend(cash: real, x: real, y: real)
    requires cash > 0.0 && 0.0 <= x <= y
    ensures 0.0 <= Share(cash, x) <= Share(cash, y)
  {
    MulMonotone(0.0, x, cash);
    MulMonotone(x, y, cash);
    assert Share(cash, x) == x * cash && Share(cash, y) == y * cash;
  }

  /** The quantity of every mode: a positive number of lots is taken exactly when the mode asks for it and
      the cash pays its full cost. */
  lemma PositionQtyIff(c: SizingConfig, cash: real, price: real, m: ExecutionModel, pred: Option<real>,
                       atr: Option<real>, volume: real, q: int)
    requires c.Valid() && OrdinaryAtr(c) && m.Usable() && m.NonNegativeCosts() && m.MonotoneImpact()
    requires price > 0.0 && cash > 0.0 && q > 0 && m.IsLotMultiple(q)
    ensures q <= PositionQty(c, cash, price, m, pred, atr, volume)
            <==> AsksFor(c, q, cash, m.UnitBuyCost(price), pred, atr) && m.BuyCost(q, price, volume) <= cash
  {
    hide AsksFor, RequestedQty, CapToCash, ExecutionModel.BuyCost, ExecutionModel.UnitBuyCost;
    m.UnitCostPositive(price);
    RequestIff(c, cash, m.UnitBuyCost(price), pred, atr, q);
    CappedIff(RequestedQty(c, cash, m.UnitBuyCost(price), pred, atr), cash, price, volume, m, q);
  }

  /** The scale of a usable forecast lies in the configured range, is the target over the forecast where that
      lies in it, and does not grow with the forecast. */
  lemma ScaleWithinRange(p: VolatilityParams, forecast: real, higher: real)
    requires p.Valid() && 0.0 < forecast <= higher
    ensures
      var scale := PositionScale(p, Some(forecast));
      && p.minScale <= scale <= p.maxScale
      && (p.minScale < scale < p.maxScale ==> scale * forecast == p.targetDailyVolatility)
      && (scale == p.minScale ==> p.minScale * forecast >= p.targetDailyVolatility || p.minScale == p.maxScale)
      && (scale == p.maxScale ==> p.maxScale * forecast <= p.targetDailyVolatility || p.minScale == p.maxScale)
      && PositionScale(p, Some(higher)) <= scale
  {
    var ratio := p.targetDailyVolatility / forecast;
    assert ratio * forecast == p.targetDailyVolatility;
    MulOrder(p.minScale, ratio, forecast);
    MulOrder(ratio, p.minScale, forecast);
    MulOrder(p.maxScale, ratio, forecast);
    MulOrder(ratio, p.maxScale, forecast);
    RatioFalls(p.targetDailyVolatility, forecast, higher);
  }

  lemma RatioFalls(amount: real, x: real, y: real)
    requires amount > 0.0 && 0.0 < x <= y
    ensures amount / y <= amount / x
  {
    var r := amount / y;
    assert r * y == amount && amount / x * x == amount;
    if r < 0.0 { MulStrict(r, 0.0, y); }
    MulMonotone(x, y, r);
    assert x * r == r * x && y * r == r * y;
    MulOrder(r, amount / x, x);
  }

  /** The scaled quantity: a positive number of lots is taken exactly when it is at most the scaled quantity,
      cut to a whole number, and the cash pays its full cost. */
  lemma ScaleQtyIff(p: VolatilityParams, forecast: Option<real>, qty: int, cash: real, price: real, volume: real,
                    m: ExecutionModel, q: int)
    requires p.Valid() && m.Usable() && m.NonNegativeCosts() && m.MonotoneImpact()
    requires price > 0.0 && qty > 0 && q > 0 && m.IsLotMultiple(q)
    ensures q <= ScaleQty(Some(p), forecast, qty, cash, price, volume, m)
            <==> q as real <= qty as real * PositionScale(p, forecast) && m.BuyCost(q, price, volume) <= cash
  {
    hide CapToCash, ExecutionModel.BuyCost, PositionScale, ScaledQty;
    ScaledIff(p, forecast, qty, q);
    CappedIff(ScaledQty(p, forecast, qty), cash, price, volume, m, q);
  }

  lemma ScaledIff(p: VolatilityParams, forecast: Option<real>, qty: int, q: int)
    requires p.Valid() && qty > 0
    ensures q <= ScaledQty(p, forecast, qty) <==> q as real <= qty as real * PositionScale(p, forecast)
  {
    hide PositionScale;
    PositiveScale(p, forecast);
    PositiveProduct(qty as real, PositionScale(p, forecast));
    assert ScaledQty(p, forecast, qty) == Truncate(qty as real * PositionScale(p, forecast));
    hide Truncate, ScaledQty;
    TruncateIff(q, qty as real * PositionScale(p, forecast));
  }

  /** The scale is positive, and one without a usable forecast. */
  lemma PositiveScale(p: VolatilityParams, forecast: Option<real>)
    requires p.Valid()
    ensures PositionScale(p, forecast) > 0.0
    ensures forecast.None? || forecast.value <= 0.0 ==> PositionScale(p, forecast) == 1.0
  {
  }

  lemma TruncateIff(q: int, x: real)
    requires x >= 0.0
    ensures q <= Truncate(x) <==> q as real <= x
  {
  }

  /** The stop of a usable forecast is the multiple of it, at most the largest stop, and does not shrink as
      the forecast grows; without one it is the fixed stop. */
  lemma StopFollowsForecast(p: VolatilityParams, forecast: real, higher: real, fixed: Option<real>)
    requires p.Valid() && 0.0 < forecast <= higher
    ensures
      var stop := StopLossPct(Some(p), Some(forecast), fixed);
      && stop.Some? && 0.0 < stop.value <= p.maxStopLossPct
      && (stop.value < p.maxStopLossPct ==> stop.value == p.stopVolatilityMultiple * forecast)
      && (stop.value == p.maxStopLossPct ==> p.stopVolatilityMultiple * forecast >= p.maxStopLossPct)
      && stop.value <= StopLossPct(Some(p), Some(higher), fixed).value
    ensures StopLossPct(None, Some(forecast), fixed) == fixed && StopLossPct(Some(p), None, fixed) == fixed
  {
    PositiveProduct(forecast, p.stopVolatilityMultiple);
    MulMonotone(forecast, higher, p.stopVolatilityMultiple);
    assert p.stopVolatilityMultiple * forecast == forecast * p.stopVolatilityMultiple;
  }
}
