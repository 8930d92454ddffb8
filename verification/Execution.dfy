/** Trading costs: the size-dependent slippage, the cost of a fill and the largest
    quantity that a given amount of cash can pay for. Prices and rates are exact reals. */
module Execution {
  import opened Arithmetic
  import opened Wrappers

  /** (quantity, price, average volume) -> slippage rate */
  type SlippageFn = (int, real, real) -> real

  datatype TradingCosts = TradingCosts(feeRate: real, slippageRate: real, lotSize: int)

  datatype ExecutionModel = ExecutionModel(costs: TradingCosts, slippageFn: Option<SlippageFn>) {

    /** The flat unit cost is positive; without this the source divides by zero. */
    predicate Usable() {
      1.0 + costs.feeRate + costs.slippageRate > 0.0
    }

    /** No fill is ever rewarded by its costs. */
    ghost predicate NonNegativeCosts() {
      && costs.feeRate >= 0.0
      && costs.slippageRate >= 0.0
      && (slippageFn.Some? ==> forall q, p, v :: slippageFn.value(q, p, v) >= 0.0)
    }

    /** A larger order never gets a better slippage rate. */
    ghost predicate MonotoneImpact() {
      slippageFn.Some? ==>
        forall q1, q2, p, v :: q1 <= q2 ==> slippageFn.value(q1, p, v) <= slippageFn.value(q2, p, v)
    }

    function EffectiveSlippage(qty: int, price: real, volume: real): real {
      if slippageFn.Some? && volume > 0.0 && qty > 0
      then costs.slippageRate + slippageFn.value(qty, price, volume)
      else costs.slippageRate
    }

    /** Fee plus slippage: the share of the traded amount that a fill costs. */
    function CostRate(qty: int, price: real, volume: real): real {
      costs.feeRate + EffectiveSlippage(qty, price, volume)
    }

    /** Price of one share at the flat rate. */
    function UnitBuyCost(price: real): real {
      price * (1.0 + costs.feeRate + costs.slippageRate)
    }

    lemma UnitCostPositive(price: real)
      requires Usable() && price > 0.0
      ensures UnitBuyCost(price) > 0.0
    {
      var rate := 1.0 + costs.feeRate + costs.slippageRate;
      PositiveProduct(price, rate);
      assert UnitBuyCost(price) == price * rate;
    }

    function BuyCost(qty: int, price: real, volume: real): real {
      qty as real * price * (1.0 + costs.feeRate + EffectiveSlippage(qty, price, volume))
    }

    function SellProceeds(qty: int, price: real, volume: real): real {
      qty as real * price * (1.0 - costs.feeRate - EffectiveSlippage(qty, price, volume))
    }

    function LotSize(): (lot: int)
      ensures lot >= 1
    {
      if costs.lotSize < 1 then 1 else costs.lotSize
    }

    predicate IsLotMultiple(qty: int) {
      qty % LotSize() == 0
    }

    /** The largest lot multiple that is at most `qty`, and 0 for a negative quantity. */
    function RoundToLot(qty: int): (r: int)
      ensures IsLotMultiple(r) && r >= 0
      ensures qty >= 0 ==> qty - LotSize() < r <= qty
    {
      if qty <= 0 then 0
      else
        RoundDown(qty, LotSize());
        (qty / LotSize()) * LotSize()
    }

    /** Rounding is down to whole lots of the configured size; without a size a lot is one share. */
    lemma RoundedIsWholeLots(qty: nat)
      ensures
        var r := RoundToLot(qty);
        && (costs.lotSize >= 1 ==> r % costs.lotSize == 0 && qty - costs.lotSize < r <= qty)
        && (costs.lotSize < 1 ==> r == qty)
    {
    }

    /** Costs are on the traded amount: what a buyer pays above it and a seller loses from it. */
    lemma FillCosts(qty: int, price: real, volume: real)
      ensures BuyCost(qty, price, volume) == qty as real * price + qty as real * price * CostRate(qty, price, volume)
      ensures SellProceeds(qty, price, volume)
                == qty as real * price - qty as real * price * CostRate(qty, price, volume)
    {
    }

    /** Beyond the flat rate a fill pays exactly its own impact on the traded amount: that of its quantity, price
        and average volume where there is an impact and a volume, and nothing otherwise. */
    lemma PremiumIsImpact(qty: int, price: real, volume: real)
      requires qty > 0
      ensures
        var impact := if slippageFn.Some? && volume > 0.0 then slippageFn.value(qty, price, volume) else 0.0;
        BuyCost(qty, price, volume) - qty as real * UnitBuyCost(price) == qty as real * price * impact
    {
      var flat := 1.0 + costs.feeRate + costs.slippageRate;
      assert qty as real * UnitBuyCost(price) == qty as real * price * flat;
    }

    /** Buying and selling again at one price loses twice the fee and the slippage of the amount. */
    lemma RoundTripLoss(qty: int, price: real, volume: real)
      ensures BuyCost(qty, price, volume) - SellProceeds(qty, price, volume)
                == qty as real * price * (2.0 * CostRate(qty, price, volume))
    {
      FillCosts(qty, price, volume);
      assert qty as real * price * (2.0 * CostRate(qty, price, volume))
          == qty as real * price * CostRate(qty, price, volume) + qty as real * price * CostRate(qty, price, volume);
    }

    lemma RateMonotone(q1: int, q2: int, price: real, volume: real)
      requires NonNegativeCosts() && MonotoneImpact()
      requires 0 <= q1 <= q2
      ensures 0.0 <= CostRate(q1, price, volume) <= CostRate(q2, price, volume)
    {
    }

    /** A larger order costs more in total, because both factors grow. */
    lemma BuyCostMonotone(q1: int, q2: int, price: real, volume: real)
      requires NonNegativeCosts() && MonotoneImpact()
      requires 0 <= q1 <= q2 && price >= 0.0
      ensures BuyCost(q1, price, volume) <= BuyCost(q2, price, volume)
    {
      RateMonotone(q1, q2, price, volume);
      var r1, r2 := 1.0 + CostRate(q1, price, volume), 1.0 + CostRate(q2, price, volume);
      MulMonotone(q1 as real, q2 as real, price);
      MulMonotone(q1 as real * price, q2 as real * price, r1);
      MulMonotone(r1, r2, q2 as real * price);
    }

    /** The flat rate is a lower bound of what any order costs. */
    lemma FlatCostIsLeast(qty: int, price: real, volume: real)
      requires NonNegativeCosts()
      requires qty >= 0 && price >= 0.0
      ensures qty as real * UnitBuyCost(price) <= BuyCost(qty, price, volume)
    {
      var flat := 1.0 + costs.feeRate + costs.slippageRate;
      var full := 1.0 + CostRate(qty, price, volume);
      MulMonotone(0.0, qty as real, price);
      MulMonotone(flat, full, qty as real * price);
      assert qty as real * UnitBuyCost(price) == qty as real * price * flat;
    }

    /** The lot multiples at most `start`, tried downwards until one fits in `cash`. */
    function LargestFitting(start: int, cash: real, price: real, volume: real): (q: int)
      requires start >= 0 && IsLotMultiple(start)
      ensures 0 <= q <= start && IsLotMultiple(q)
      ensures q > 0 ==> BuyCost(q, price, volume) <= cash
      ensures forall other: int :: q < other <= start && IsLotMultiple(other) ==> BuyCost(other, price, volume) > cash
      decreases start
    {
      if start == 0 then 0
      else if BuyCost(start, price, volume) > cash then
        LotStep(start);
        LargestFitting(start - LotSize(), cash, price, volume)
      else start
    }

    /** A positive lot multiple is at least one lot, and no lot multiple lies strictly between neighbours. */
    lemma LotStep(q: int)
      requires q > 0 && IsLotMultiple(q)
      ensures q - LotSize() >= 0 && IsLotMultiple(q - LotSize())
      ensures forall other: int :: q - LotSize() < other < q ==> !IsLotMultiple(other)
    {
      NeighbouringMultiples(q, LotSize());
    }

    function MaxAffordableQty(cash: real, price: real, volume: real): (q: int)
      requires Usable()
      ensures q >= 0 && IsLotMultiple(q)
      ensures q > 0 ==> BuyCost(q, price, volume) <= cash
    {
      if cash <= 0.0 || price <= 0.0 then 0
      else
        UnitCostPositive(price);
        LargestFitting(RoundToLot((cash / UnitBuyCost(price)).Floor), cash, price, volume)
    }

    /** Exactness: when price is positive, the result is the largest lot multiple that fits in the
        cash at its full, size-dependent cost. The search may start at the flat-rate floor
        because no affordable quantity lies above it. */
    lemma MaxAffordableIsLargest(cash: real, price: real, volume: real, other: int)
      requires Usable() && NonNegativeCosts()
      requires price > 0.0
      requires other >= 0 && IsLotMultiple(other)
      requires other == 0 || BuyCost(other, price, volume) <= cash
      ensures other <= MaxAffordableQty(cash, price, volume)
    {
      if other > 0 {
        FlatCostIsLeast(other, price, volume);
        FlatFloorBounds(other, cash, price);
        LotBelow(other, (cash / UnitBuyCost(price)).Floor);
      }
    }

    /** A quantity payable at the flat rate is at most the flat-rate floor. */
    lemma FlatFloorBounds(qty: int, cash: real, price: real)
      requires Usable() && price > 0.0 && qty > 0
      requires qty as real * UnitBuyCost(price) <= cash
      ensures cash > 0.0 && UnitBuyCost(price) > 0.0
      ensures qty <= (cash / UnitBuyCost(price)).Floor
    {
      UnitCostPositive(price);
      var unit := UnitBuyCost(price);
      PositiveProduct(qty as real, unit);
      DivideBound(qty as real, cash, unit);
    }

    /** Rounding down to a lot keeps every lot multiple below it. */
    lemma LotBelow(other: int, qty: int)
      requires 0 <= other <= qty && IsLotMultiple(other)
      ensures other <= RoundToLot(qty)
    {
      RoundDownKeeps(other, qty, LotSize());
    }

    /** The source's loop: start at the flat-rate floor and step down one lot at a time. */
    method ComputeMaxAffordableQty(cash: real, price: real, volume: real) returns (qty: int)
      requires Usable()
      ensures qty == MaxAffordableQty(cash, price, volume)
    {
      if cash <= 0.0 || price <= 0.0 {
        return 0;
      }
      UnitCostPositive(price);
      qty := RoundToLot((cash / UnitBuyCost(price)).Floor);
      if qty <= 0 {
        return 0;
      }
      var lot := LotSize();
      while qty > 0 && BuyCost(qty, price, volume) > cash
        invariant qty >= 0 && IsLotMultiple(qty)
        invariant LargestFitting(qty, cash, price, volume) == MaxAffordableQty(cash, price, volume)
        decreases qty
      {
        LotStep(qty);
        qty := qty - lot;
      }
      qty := if qty > 0 then qty else 0;
    }
  }
}
