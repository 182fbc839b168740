/** The bonding-curve pool pricer: the PT/YT pool trades as if each side
    held an extra virtual reserve equal to the market's concentration, and
    its implied PT/YT price ratio is split into PT and YT shares of 1. Also
    the LP conversion rates from pool reserves. */
module BondingCurve {
  import opened Wrappers
  import opened MarketState
  import opened Concentration

  datatype PoolQuote = PoolQuote(poolPrice: real, poolPtPrice: real, poolYtPrice: real)

  /** The pool split for given concentration, reserves and token prices.
      `poolPrice` is the value of the virtual YT side over the value of the
      virtual PT side, each reserve valued at its token price. A zero PT
      price makes the PT side worth infinitely many PT-price units, which
      decimal.js divides down to a pool price of 0; every other division by
      zero leaves the split undefined. */
  function PoolSplit(concentration: real, ptAmount: real, ytAmount: real, ptPrice: real, ytPrice: real)
    : (r: Result<PoolQuote, Fault>)
    ensures r.Success? ==> r.value.poolPtPrice + r.value.poolYtPrice == 1.0
    ensures ytPrice == 0.0 ==> r == Failure(ZeroYtPrice)
    ensures ytPrice != 0.0 && ptAmount + concentration == 0.0 ==> r == Failure(ZeroVirtualPt)
    ensures ytPrice != 0.0 && ptAmount + concentration != 0.0 && ptPrice == 0.0 ==>
              r == Success(PoolQuote(0.0, 0.0, 1.0))
    ensures ptPrice > 0.0 && ytPrice > 0.0 && ptAmount + concentration > 0.0 && ytAmount + concentration > 0.0 ==>
              r.Success? && r.value.poolPrice > 0.0 && 0.0 < r.value.poolPtPrice < 1.0
    ensures r.Success? && ptPrice != 0.0 ==>
              var virtualPt := ptAmount + concentration;
              var virtualYt := ytAmount + concentration;
              r.value.poolPrice * (virtualPt * ytPrice) == virtualYt * ptPrice
  {
    var virtualPt := ptAmount + concentration;
    var virtualYt := ytAmount + concentration;
    if ytPrice == 0.0 then
      Failure(ZeroYtPrice)
    else if virtualPt == 0.0 then
      Failure(ZeroVirtualPt)
    else if ptPrice == 0.0 then
      Success(PoolQuote(0.0, 0.0, 1.0))
    else
      var poolPrice := virtualYt / ytPrice / (virtualPt / ptPrice);
      PoolPriceCrossMultiplied(virtualPt, virtualYt, ptPrice, ytPrice);
      if poolPrice + 1.0 == 0.0 then
        Failure(PoolPriceMinusOne)
      else
        var poolPtPrice := poolPrice / (poolPrice + 1.0);
        ShareOfOne(poolPrice);
        Success(PoolQuote(poolPrice, poolPtPrice, 1.0 - poolPtPrice))
  }

  /** The pool price is the ratio `virtualYt * ptPrice : virtualPt * ytPrice`;
      for positive operands it is positive. */
  lemma PoolPriceCrossMultiplied(virtualPt: real, virtualYt: real, ptPrice: real, ytPrice: real)
    requires virtualPt != 0.0 && ptPrice != 0.0 && ytPrice != 0.0
    ensures var poolPrice := virtualYt / ytPrice / (virtualPt / ptPrice);
            && poolPrice * (virtualPt * ytPrice) == virtualYt * ptPrice
            && (virtualPt > 0.0 && virtualYt > 0.0 && ptPrice > 0.0 && ytPrice > 0.0 ==> poolPrice > 0.0)
  {
    var a := virtualYt / ytPrice;
    var b := virtualPt / ptPrice;
    assert a * ytPrice == virtualYt;
    assert b * ptPrice == virtualPt;
    assert a / b * b == a;
    assert a / b * (virtualPt * ytPrice) == a / b * b * ptPrice * ytPrice;
  }

  /** `x / (x + 1)` lies strictly between 0 and 1 for positive `x`. */
  lemma ShareOfOne(x: real)
    requires x + 1.0 != 0.0
    ensures x > 0.0 ==> 0.0 < x / (x + 1.0) < 1.0
  {
  }

  /** The pool quote at chain time `now`, with the market's concentration
      as the virtual reserve. */
  function PoolPrice(market: Market, ptAmount: real, ytAmount: real, ptPrice: real, ytPrice: real, now: int)
    : (r: Result<PoolQuote, Fault>)
    ensures r.Success? ==> r.value.poolPtPrice + r.value.poolYtPrice == 1.0
    ensures MarketConcentration(now, market).Failure? ==> r.Failure?
    ensures MarketConcentration(now, market).Success? ==>
              r == PoolSplit(MarketConcentration(now, market).value, ptAmount, ytAmount, ptPrice, ytPrice)
  {
    var concentration :- MarketConcentration(now, market);
    PoolSplit(concentration, ptAmount, ytAmount, ptPrice, ytPrice)
  }

  /** In closed form the PT share is `virtualYt * ptPrice` over the total
      value `virtualYt * ptPrice + virtualPt * ytPrice`. */
  lemma PoolPtPriceClosedForm(concentration: real, ptAmount: real, ytAmount: real,
                              ptPrice: real, ytPrice: real)
    requires ptPrice > 0.0 && ytPrice > 0.0
    requires ptAmount + concentration > 0.0 && ytAmount + concentration > 0.0
    ensures var virtualPt := ptAmount + concentration;
            var virtualYt := ytAmount + concentration;
            PoolSplit(concentration, ptAmount, ytAmount, ptPrice, ytPrice).value.poolPtPrice
              == virtualYt * ptPrice / (virtualYt * ptPrice + virtualPt * ytPrice)
  {
    var virtualPt := ptAmount + concentration;
    var virtualYt := ytAmount + concentration;
    var q := PoolSplit(concentration, ptAmount, ytAmount, ptPrice, ytPrice).value;
    var v := virtualPt * ytPrice;
    var u := virtualYt * ptPrice;
    assert v > 0.0 && u > 0.0;
    assert q.poolPrice * v == u;
    assert q.poolPrice == u / v;
    RatioShare(u, v);
  }

  /** `(u / v) / (u / v + 1) == u / (u + v)` for positive `u` and `v`. */
  lemma RatioShare(u: real, v: real)
    requires u > 0.0 && v > 0.0
    ensures (u / v) / (u / v + 1.0) == u / (u + v)
  {
    var w := u / v;
    assert w * v == u;
    assert w > 0.0;
    assert (w + 1.0) * v == u + v;
    var lhs := w / (w + 1.0);
    assert lhs * (w + 1.0) == w;
    assert lhs * (u + v) == lhs * (w + 1.0) * v;
    assert lhs * (u + v) == u;
  }

  /** With equal PT and YT reserves and prices that split 1, the pool
      quotes the fundamental PT price. */
  lemma EqualReservesQuoteFundamental(concentration: real, amount: real, ptPrice: real)
    requires 0.0 < ptPrice < 1.0 && amount + concentration > 0.0
    ensures PoolSplit(concentration, amount, amount, ptPrice, 1.0 - ptPrice).value.poolPtPrice == ptPrice
  {
    var v := amount + concentration;
    PoolPtPriceClosedForm(concentration, amount, amount, ptPrice, 1.0 - ptPrice);
    assert v * ptPrice + v * (1.0 - ptPrice) == v;
    assert v * ptPrice / v == ptPrice;
  }

  /** Reserves of 100 PT and 100 YT with concentration 10 at prices 0.9 and
      0.1 quote a pool price of 9 and a 0.9 / 0.1 split. */
  lemma HundredReservesScenario()
    ensures PoolSplit(10.0, 100.0, 100.0, 0.9, 0.1) == Success(PoolQuote(9.0, 0.9, 0.1))
  {
    assert 110.0 / 0.1 / (110.0 / 0.9) == 9.0;
  }

  datatype LpRates = LpRates(lpPtRate: real, lpYtRate: real)

  /** PT and YT backing per LP token. */
  function Rates(ptPoolAmount: real, ytPoolAmount: real, lpSupplyAmount: real): (r: Result<LpRates, Fault>)
    ensures r.Failure? <==> lpSupplyAmount == 0.0
    ensures r.Success? ==>
              && r.value.lpPtRate * lpSupplyAmount == ptPoolAmount
              && r.value.lpYtRate * lpSupplyAmount == ytPoolAmount
  {
    if lpSupplyAmount == 0.0 then Failure(ZeroLpSupply)
    else Success(LpRates(ptPoolAmount / lpSupplyAmount, ytPoolAmount / lpSupplyAmount))
  }
}
