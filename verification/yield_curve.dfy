/** The yield curve engine: the market's current APY, the price of the
    underlying it was last fitted to, and the terminal (end) price that the
    PT price is derived from. Fixed-accrual markets refit a compounding
    curve to a spot quote when enough time has passed; linear-decay markets
    slide their end price from `initialEndPrice` to `startPrice`. */
module YieldCurve {
  import opened Wrappers
  import opened FixedPoint
  import opened MarketState

  /** Seconds in a 365-day year. */
  const YearSeconds: int := 365 * 24 * 60 * 60

  datatype Curve = Curve(marketApy: real, marketEndPrice: real, marketSolPrice: real)

  /** The exponents of the compounding curve: compounding steps per year and
      per market lifetime. */
  datatype Exponents = Exponents(yearEpoch: real, marketEpoch: real)

  /** The curve persisted on chain, normalised by the price base. */
  function Cached(config: MarketConfig): (c: Curve)
    requires config.priceBase > 0
    ensures c.marketApy * config.priceBase as real == config.marketApy as real
    ensures c.marketEndPrice * config.priceBase as real == config.marketEndPrice as real
    ensures c.marketSolPrice * config.priceBase as real == config.marketSolPrice as real
  {
    var base := config.priceBase as real;
    Curve(config.marketApy as real / base, config.marketEndPrice as real / base,
          config.marketSolPrice as real / base)
  }

  /** Whether enough time has passed since the last on-chain update for the
      curve to be refitted: epoch mode (no compounding period) waits for the
      skip time past the current epoch's start and refuses an epoch older
      than the last update; time mode waits for the skip time past the last
      update. */
  predicate CompoundingDue(config: MarketConfig, clock: Clock) {
    if config.compoundingPeriod == 0 then
      && clock.solanaTimestamp > clock.epochStartTimestamp + config.updateSkipTime
      && clock.epoch >= config.lastUpdateEpoch
    else
      clock.solanaTimestamp > config.lastUpdateTime + config.updateSkipTime
  }

  /** The number of compounding steps elapsed since the market started; zero
      when no refit is due. In epoch mode a step is a chain epoch; in time
      mode it is one compounding period of seconds, and may be fractional. */
  function EpochCount(config: MarketConfig, clock: Clock): (n: real)
    ensures !CompoundingDue(config, clock) ==> n == 0.0
    ensures CompoundingDue(config, clock) && config.compoundingPeriod == 0 ==>
              n == (clock.epoch - config.startEpoch) as real
    ensures CompoundingDue(config, clock) && config.compoundingPeriod != 0 ==>
              n * config.compoundingPeriod as real == (clock.solanaTimestamp - config.startTime) as real
  {
    if !CompoundingDue(config, clock) then
      0.0
    else if config.compoundingPeriod == 0 then
      (clock.epoch - config.startEpoch) as real
    else
      (clock.solanaTimestamp - config.startTime) as real / config.compoundingPeriod as real
  }

  /** The compounding exponents. In time mode a step lasts one compounding
      period; in epoch mode a step lasts the average epoch length observed
      so far, `(epochStartTimestamp - startTime) / epochCount`, which is
      undefined when no time has elapsed. */
  function CompoundingExponents(config: MarketConfig, clock: Clock, epochCount: real): (r: Result<Exponents, Fault>)
    ensures r.Failure? <==> config.compoundingPeriod == 0 && clock.epochStartTimestamp == config.startTime
    ensures r.Success? && config.compoundingPeriod != 0 ==>
              && r.value.yearEpoch * config.compoundingPeriod as real == YearSeconds as real
              && r.value.marketEpoch * config.compoundingPeriod as real == (config.endTime - config.startTime) as real
    ensures r.Success? && config.compoundingPeriod == 0 ==>
              var span := (clock.epochStartTimestamp - config.startTime) as real;
              && r.value.yearEpoch * span == YearSeconds as real * epochCount
              && r.value.marketEpoch * span == (config.endTime - config.startTime) as real * epochCount
  {
    var marketTime := (config.endTime - config.startTime) as real;
    if config.compoundingPeriod == 0 then
      var span := (clock.epochStartTimestamp - config.startTime) as real;
      if span == 0.0 then Failure(ZeroEpochSpan)
      else Success(Exponents(YearSeconds as real / span * epochCount, epochCount * marketTime / span))
    else
      var period := config.compoundingPeriod as real;
      Success(Exponents(YearSeconds as real / period, marketTime / period))
  }

  /** The fixed-accrual curve. `spot` is the oracle quote for the yield
      bearing token, `beforeEnd` whether the wall clock is still before the
      market's end time, and `pow` the decimal power function. The cached
      curve stands unless the market is live, the spot quote has risen above
      the cached one, and at least one compounding step is due; otherwise the
      per-step growth `aprPlusOne` is fitted to the spot price and the APY and
      end price are recomputed from it, each truncated to the price base. */
  function FixedAccrualCurve(config: MarketConfig, spot: real, clock: Clock, beforeEnd: bool,
                             pow: (real, real) -> real): (r: Result<Curve, Fault>)
    ensures config.priceBase == 0 <==> r == Failure(ZeroPriceBase)
    ensures config.priceBase > 0 && !beforeEnd ==> r == Success(Cached(config))
    ensures config.priceBase > 0 && spot <= Cached(config).marketSolPrice ==> r == Success(Cached(config))
    ensures config.priceBase > 0 && !CompoundingDue(config, clock) ==> r == Success(Cached(config))
    ensures r.Success? && r.value != Cached(config) ==>
              && r.value.marketSolPrice == spot
              && OnGrid(r.value.marketApy, config.priceBase as real)
              && OnGrid(r.value.marketEndPrice, config.priceBase as real)
    ensures config.priceBase > 0 && EpochCount(config, clock) <= 0.0 ==> r == Success(Cached(config))
    ensures && config.priceBase > 0 && beforeEnd && Cached(config).marketSolPrice < spot
            && EpochCount(config, clock) > 0.0 && config.startPrice != 0
            && CompoundingExponents(config, clock, EpochCount(config, clock)).Success? ==>
              r == Success(Refit(config, spot, EpochCount(config, clock),
                                 CompoundingExponents(config, clock, EpochCount(config, clock)).value, pow))
    ensures r.Success? && r.value != Cached(config) ==>
              && config.priceBase > 0 && config.startPrice != 0 && EpochCount(config, clock) > 0.0
              && CompoundingExponents(config, clock, EpochCount(config, clock)).Success?
              && r.value == Refit(config, spot, EpochCount(config, clock),
                                  CompoundingExponents(config, clock, EpochCount(config, clock)).value, pow)
    ensures && config.priceBase > 0 && beforeEnd && Cached(config).marketSolPrice < spot
            && EpochCount(config, clock) > 0.0 ==>
              (r.Failure? <==>
                 CompoundingExponents(config, clock, EpochCount(config, clock)).Failure? || config.startPrice == 0)
    ensures r.Failure? && config.priceBase > 0 ==>
              beforeEnd && Cached(config).marketSolPrice < spot && EpochCount(config, clock) > 0.0
  {
    if config.priceBase == 0 then
      Failure(ZeroPriceBase)
    else
      var cached := Cached(config);
      if !(beforeEnd && cached.marketSolPrice < spot) then
        Success(cached)
      else
        var epochCount := EpochCount(config, clock);
        if epochCount <= 0.0 then
          Success(cached)
        else
          match CompoundingExponents(config, clock, epochCount)
          case Failure(fault) => Failure(fault)
          case Success(exponents) =>
            if config.startPrice == 0 then Failure(ZeroStartPrice)
            else Success(Refit(config, spot, epochCount, exponents, pow))
  }

  /** The refitted curve: the per-step growth `aprPlusOne` is the
      `epochCount`-th root of the growth from `startPrice` to the spot quote
      (scaled to the price base and truncated); the APY compounds it over a
      year and the end price over the market's lifetime, each truncated to a
      whole number of price-base units. The reference price becomes the spot
      quote itself. */
  function Refit(config: MarketConfig, spot: real, epochCount: real, exponents: Exponents,
                 pow: (real, real) -> real): (c: Curve)
    requires config.priceBase > 0 && config.startPrice != 0 && epochCount > 0.0
    ensures c.marketSolPrice == spot
    ensures OnGrid(c.marketApy, config.priceBase as real)
    ensures OnGrid(c.marketEndPrice, config.priceBase as real)
    ensures var growth := pow(GrowthPerStep(config, spot, epochCount, pow), exponents.yearEpoch);
            TruncatedFrom(c.marketApy, growth - 1.0, config.priceBase as real)
    ensures var growth := pow(GrowthPerStep(config, spot, epochCount, pow), exponents.marketEpoch);
            TruncatedFrom(c.marketEndPrice, growth * (config.startPrice as real / config.priceBase as real),
                          config.priceBase as real)
  {
    var base := config.priceBase as real;
    var aprPlusOne := GrowthPerStep(config, spot, epochCount, pow);
    var apy := pow(aprPlusOne, exponents.yearEpoch) - 1.0;
    var endPrice := pow(aprPlusOne, exponents.marketEpoch) * (config.startPrice as real / base);
    Curve(TruncateToBase(apy, base), TruncateToBase(endPrice, base), spot)
  }

  /** The per-step growth factor fitted to the spot quote. */
  function GrowthPerStep(config: MarketConfig, spot: real, epochCount: real,
                         pow: (real, real) -> real): real
    requires config.startPrice != 0 && epochCount > 0.0
  {
    pow(Floor(spot * config.priceBase as real) as real / config.startPrice as real, 1.0 / epochCount)
  }

  /** The raw linear-decay end price at `now`: `initialEndPrice` at the start
      time moving in a straight line to `startPrice` at the end time, in
      price-base units. */
  function InterpolatedEndPrice(config: MarketConfig, now: int): real
    requires config.endTime != config.startTime
  {
    var delta := (config.initialEndPrice - config.startPrice) as real;
    config.initialEndPrice as real
      - delta * (now - config.startTime) as real / (config.endTime - config.startTime) as real
  }

  /** The linear-decay curve. Up to and including the end time the end price
      is the interpolated raw price truncated to a whole number of price-base
      units; past it the code falls back to the raw `startPrice`, NOT divided
      by the price base. The APY is always 0 and the reference price 1. */
  function LinearDecayCurve(config: MarketConfig, now: int): (r: Result<Curve, Fault>)
    ensures r.Success? ==> r.value.marketApy == 0.0 && r.value.marketSolPrice == 1.0
    ensures r.Failure? <==>
              now - config.startTime <= config.endTime - config.startTime &&
              (config.endTime == config.startTime || config.priceBase == 0)
    ensures now - config.startTime > config.endTime - config.startTime ==>
              r == Success(Curve(0.0, config.startPrice as real, 1.0))
    ensures r.Success? && now - config.startTime <= config.endTime - config.startTime ==>
              var base := config.priceBase as real;
              && OnGrid(r.value.marketEndPrice, base)
              && r.value.marketEndPrice <= InterpolatedEndPrice(config, now) / base
              && InterpolatedEndPrice(config, now) / base < r.value.marketEndPrice + 1.0 / base
  {
    var timeDiff := now - config.startTime;
    var marketTime := config.endTime - config.startTime;
    if timeDiff <= marketTime then
      if marketTime == 0 then
        Failure(ZeroMarketDuration)
      else if config.priceBase == 0 then
        Failure(ZeroPriceBase)
      else
        var base := config.priceBase as real;
        Success(Curve(0.0, TruncateToBase(InterpolatedEndPrice(config, now) / base, base), 1.0))
    else
      Success(Curve(0.0, config.startPrice as real, 1.0))
  }

  /** The yield curve of a market, dispatched on its type. */
  function MarketApy(config: MarketConfig, spot: real, clock: Clock, beforeEnd: bool,
                     pow: (real, real) -> real): (r: Result<Curve, Fault>)
    ensures KindOf(config.marketType) == FixedAccrual ==> r == FixedAccrualCurve(config, spot, clock, beforeEnd, pow)
    ensures KindOf(config.marketType) == LinearDecay ==> r == LinearDecayCurve(config, clock.solanaTimestamp)
    ensures KindOf(config.marketType) == LinearDecay && r.Success? ==>
              r.value.marketApy == 0.0 && r.value.marketSolPrice == 1.0
    ensures KindOf(config.marketType) == LinearDecay && clock.solanaTimestamp > config.endTime ==>
              r == Success(Curve(0.0, config.startPrice as real, 1.0))
    ensures KindOf(config.marketType) == FixedAccrual && config.priceBase > 0 && !beforeEnd ==>
              r == Success(Cached(config))
    ensures config.priceBase == 0 && (KindOf(config.marketType) == FixedAccrual || clock.solanaTimestamp <= config.endTime) ==>
              r.Failure?
  {
    match KindOf(config.marketType)
    case FixedAccrual => FixedAccrualCurve(config, spot, clock, beforeEnd, pow)
    case LinearDecay => LinearDecayCurve(config, clock.solanaTimestamp)
  }

  /** A linear-decay market at its start time quotes `initialEndPrice`. */
  lemma LinearDecayAtStart(config: MarketConfig)
    requires config.startTime < config.endTime && config.priceBase > 0
    ensures LinearDecayCurve(config, config.startTime)
              == Success(Curve(0.0, config.initialEndPrice as real / config.priceBase as real, 1.0))
  {
    assert InterpolatedEndPrice(config, config.startTime) == config.initialEndPrice as real;
    TruncateOnGrid(config.initialEndPrice, config.priceBase as real);
  }

  /** Exactly at its end time a linear-decay market quotes `startPrice`
      normalised by the price base. */
  lemma LinearDecayAtEnd(config: MarketConfig)
    requires config.startTime != config.endTime && config.priceBase > 0
    ensures LinearDecayCurve(config, config.endTime)
              == Success(Curve(0.0, config.startPrice as real / config.priceBase as real, 1.0))
  {
    var marketTime := (config.endTime - config.startTime) as real;
    var delta := (config.initialEndPrice - config.startPrice) as real;
    assert delta * marketTime / marketTime == delta;
    assert InterpolatedEndPrice(config, config.endTime) == config.startPrice as real;
    TruncateOnGrid(config.startPrice, config.priceBase as real);
  }

  /** While the market runs, a linear-decay end price moves monotonically
      from `initialEndPrice` toward `startPrice`: it never rises when
      `startPrice <= initialEndPrice` and never falls otherwise. */
  lemma LinearDecayMonotone(config: MarketConfig, t1: int, t2: int)
    requires config.startTime <= t1 <= t2 <= config.endTime
    requires config.startTime < config.endTime && config.priceBase > 0
    ensures LinearDecayCurve(config, t1).Success? && LinearDecayCurve(config, t2).Success?
    ensures config.startPrice <= config.initialEndPrice ==>
              LinearDecayCurve(config, t2).value.marketEndPrice <= LinearDecayCurve(config, t1).value.marketEndPrice
    ensures config.initialEndPrice <= config.startPrice ==>
              LinearDecayCurve(config, t1).value.marketEndPrice <= LinearDecayCurve(config, t2).value.marketEndPrice
  {
    var base := config.priceBase as real;
    InterpolatedEndPriceMonotone(config, t1, t2);
    if config.startPrice <= config.initialEndPrice {
      DivideMonotone(InterpolatedEndPrice(config, t2), InterpolatedEndPrice(config, t1), base);
      TruncateMonotone(InterpolatedEndPrice(config, t2) / base, InterpolatedEndPrice(config, t1) / base, base);
    }
    if config.initialEndPrice <= config.startPrice {
      DivideMonotone(InterpolatedEndPrice(config, t1), InterpolatedEndPrice(config, t2), base);
      TruncateMonotone(InterpolatedEndPrice(config, t1) / base, InterpolatedEndPrice(config, t2) / base, base);
    }
  }

  /** The raw interpolated end price moves from `initialEndPrice` toward
      `startPrice` as time passes. */
  lemma InterpolatedEndPriceMonotone(config: MarketConfig, t1: int, t2: int)
    requires config.startTime <= t1 <= t2 && config.startTime < config.endTime
    ensures config.startPrice <= config.initialEndPrice ==>
              InterpolatedEndPrice(config, t2) <= InterpolatedEndPrice(config, t1)
    ensures config.initialEndPrice <= config.startPrice ==>
              InterpolatedEndPrice(config, t1) <= InterpolatedEndPrice(config, t2)
  {
    var total := (config.endTime - config.startTime) as real;
    var delta := (config.initialEndPrice - config.startPrice) as real;
    var d1 := (t1 - config.startTime) as real;
    var d2 := (t2 - config.startTime) as real;
    if delta > 0.0 {
      ScaleMonotone(d1, d2, delta);
      assert d1 * delta == delta * d1 && d2 * delta == delta * d2;
      DivideMonotone(delta * d1, delta * d2, total);
    } else if delta < 0.0 {
      ScaleMonotone(d1, d2, -delta);
      assert d1 * -delta == -(delta * d1) && d2 * -delta == -(delta * d2);
      DivideMonotone(delta * d2, delta * d1, total);
    }
  }
}
