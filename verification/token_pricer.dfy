/** The principal/yield token pricer: the PT price is the ratio of the
    market's start price to its end price, truncated to the price base and
    capped at 1; the YT price is its complement. */
module TokenPricer {
  import opened Wrappers
  import opened FixedPoint
  import opened MarketState

  /** The PT price for a market whose yield curve ends at `endPrice`.
      A zero end price makes the ratio infinite: for a positive start price
      the cap turns that into exactly 1, otherwise the value is undefined. */
  function PtPrice(config: MarketConfig, endPrice: real): (r: Result<real, Fault>)
    ensures config.priceBase == 0 <==> r == Failure(ZeroPriceBase)
    ensures r.Success? ==> r.value <= 1.0 && OnGrid(r.value, config.priceBase as real)
    ensures config.priceBase > 0 && config.startPrice >= 0 && endPrice > 0.0 ==>
              r.Success? && 0.0 <= r.value
    ensures config.priceBase > 0 && endPrice == 0.0 ==>
              (r.Success? <==> config.startPrice > 0) && (r.Success? ==> r.value == 1.0)
    ensures config.priceBase > 0 && endPrice != 0.0 ==>
              var base := config.priceBase as real;
              var ratio := config.startPrice as real / base / endPrice;
              && r.Success?
              && (ratio >= 1.0 ==> r.value == 1.0)
              && (ratio < 1.0 ==> r.value <= ratio < r.value + 1.0 / base)
  {
    if config.priceBase == 0 then
      Failure(ZeroPriceBase)
    else
      var base := config.priceBase as real;
      var startPrice := config.startPrice as real / base;
      UnitsOnGrid(config.priceBase, base);
      if endPrice == 0.0 then
        if startPrice > 0.0 then Success(1.0) else Failure(ZeroEndPrice)
      else
        var ptPrice := TruncateToBase(startPrice / endPrice, base);
        if ptPrice > 1.0 then
          Success(1.0)
        else
          CapReached(startPrice / endPrice, config.priceBase);
          Success(ptPrice)
  }

  /** Truncating a ratio of at least 1 to the grid of a whole-number base
      still gives at least 1, so the cap catches every such ratio. */
  lemma CapReached(ratio: real, base: nat)
    requires base >= 1
    ensures ratio >= 1.0 ==> TruncateToBase(ratio, base as real) >= 1.0
  {
    if ratio >= 1.0 {
      var b := base as real;
      TruncateOnGrid(base, b);
      assert b / b == 1.0;
      TruncateMonotone(1.0, ratio, b);
    }
  }

  /** The YT price: the complement of the PT price. */
  function YtPrice(ptPrice: real): (r: real)
    ensures r + ptPrice == 1.0
  {
    1.0 - ptPrice
  }

  /** For a non-negative start price and a positive end price the two token
      prices are a split of 1 into two shares in [0, 1]. */
  lemma TokenPricesInUnitInterval(config: MarketConfig, endPrice: real)
    requires config.priceBase > 0 && config.startPrice >= 0 && endPrice > 0.0
    ensures PtPrice(config, endPrice).Success?
    ensures var pt := PtPrice(config, endPrice).value;
            0.0 <= pt <= 1.0 && 0.0 <= YtPrice(pt) <= 1.0 && pt + YtPrice(pt) == 1.0
  {
  }

  /** A price base of 1_000_000, a start price of 900_000 and an end price
      of 1.0 give PT 0.9 and YT 0.1. */
  lemma NinetyPercentScenario(config: MarketConfig)
    requires config.priceBase == 1_000_000 && config.startPrice == 900_000
    ensures PtPrice(config, 1.0) == Success(0.9)
    ensures YtPrice(0.9) == 0.1
  {
    assert Floor(0.9 * 1_000_000.0) == 900_000;
  }
}
