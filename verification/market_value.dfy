/** The valuation of one market: the oracle prices it is quoted in, its
    end price, PT and YT prices, the pool split and the LP backing rates,
    composed in the order the market-value routine computes them. */
module MarketValue {
  import opened Wrappers
  import opened FixedPoint
  import opened MarketState
  import opened YieldCurve
  import opened TokenPricer
  import opened Concentration
  import opened BondingCurve

  /** The SY mint of the one fixed-accrual market that has an oracle feed. */
  const OracleQuotedMint: string := "GU7NS9xCwgNPiAdJ69iusFrRfawjDDPjeMBovhV1d4kn"

  /** The two oracle quotes, as fetched: the yield-bearing token in its base
      token, and the base token in USDC. */
  datatype OracleQuotes = OracleQuotes(ybtInBase: real, baseInUsdc: real)

  /** The price of the yield-bearing token in its base token. Linear-decay
      markets are quoted at 1; fixed-accrual markets use the oracle when
      their SY mint has a feed and are quoted at 0 otherwise. */
  function YbtPrice(market: Market, oracle: OracleQuotes): (p: real)
    ensures KindOf(market.marketConfig.marketType) == LinearDecay ==> p == 1.0
    ensures KindOf(market.marketConfig.marketType) == FixedAccrual ==>
              p == if market.tokenSyMintAddress == OracleQuotedMint then oracle.ybtInBase else 0.0
  {
    match KindOf(market.marketConfig.marketType)
    case LinearDecay => 1.0
    case FixedAccrual => if market.tokenSyMintAddress == OracleQuotedMint then oracle.ybtInBase else 0.0
  }

  /** The price of the base token, with the same dispatch as `YbtPrice`. */
  function BaseTokenPrice(market: Market, oracle: OracleQuotes): (p: real)
    ensures KindOf(market.marketConfig.marketType) == LinearDecay ==> p == 1.0
    ensures KindOf(market.marketConfig.marketType) == FixedAccrual ==>
              p == if market.tokenSyMintAddress == OracleQuotedMint then oracle.baseInUsdc else 0.0
  {
    match KindOf(market.marketConfig.marketType)
    case LinearDecay => 1.0
    case FixedAccrual => if market.tokenSyMintAddress == OracleQuotedMint then oracle.baseInUsdc else 0.0
  }

  /** The decoded on-chain amounts the valuation reads besides the market
      itself: mint decimals, LP supply, pool reserves and the clock. */
  datatype MarketData = MarketData(mintDecimals: nat, lpSupplyAmount: nat, ptPoolAmount: nat, ytPoolAmount: nat,
                                   clock: Clock)

  datatype Valuation = Valuation(ptTokenPrice: real, ytTokenPrice: real, rates: LpRates, mintDecimals: nat)

  /** The pool split at the market's current end price: end price, then
      PT and YT prices, then the bonding curve at the current time. */
  function PoolQuoteAt(market: Market, data: MarketData, ybt: real, beforeEnd: bool,
                       pow: (real, real) -> real): (r: Result<PoolQuote, Fault>)
    ensures r.Success? ==> r.value.poolPtPrice + r.value.poolYtPrice == 1.0
    ensures market.marketConfig.priceBase == 0 ==> r.Failure?
    ensures var curve := MarketApy(market.marketConfig, ybt, data.clock, beforeEnd, pow);
            curve.Failure? || PtPrice(market.marketConfig, curve.value.marketEndPrice).Failure? ==> r.Failure?
    ensures var curve := MarketApy(market.marketConfig, ybt, data.clock, beforeEnd, pow);
            curve.Success? && PtPrice(market.marketConfig, curve.value.marketEndPrice).Success? ==>
              var ptPrice := PtPrice(market.marketConfig, curve.value.marketEndPrice).value;
              r == PoolPrice(market, data.ptPoolAmount as real, data.ytPoolAmount as real, ptPrice, YtPrice(ptPrice),
                             data.clock.solanaTimestamp)
  {
    var curve :- MarketApy(market.marketConfig, ybt, data.clock, beforeEnd, pow);
    var ptPrice :- PtPrice(market.marketConfig, curve.marketEndPrice);
    PoolPrice(market, data.ptPoolAmount as real, data.ytPoolAmount as real, ptPrice, YtPrice(ptPrice),
              data.clock.solanaTimestamp)
  }

  /** The market's token prices and LP rates. The token prices are the
      pool shares quoted in the base token's price times the yield-bearing
      token's price. */
  function GetMarketValue(market: Market, data: MarketData, oracle: OracleQuotes, beforeEnd: bool,
                          pow: (real, real) -> real): (r: Result<Valuation, Fault>)
    ensures r.Success? ==> r.value.ptTokenPrice + r.value.ytTokenPrice == QuotePrice(market, oracle)
    ensures r.Failure? <==>
              PoolQuoteAt(market, data, YbtPrice(market, oracle), beforeEnd, pow).Failure? || data.lpSupplyAmount == 0
    ensures r.Success? ==>
              QuotedAt(r.value, PoolQuoteAt(market, data, YbtPrice(market, oracle), beforeEnd, pow).value,
                       QuotePrice(market, oracle))
    ensures r.Success? ==> BacksPool(r.value.rates, data)
    ensures r.Success? ==> r.value.mintDecimals == data.mintDecimals
    ensures data.lpSupplyAmount == 0 ==> r.Failure?
    ensures market.marketConfig.priceBase == 0 ==> r.Failure?
  {
    var quote :- PoolQuoteAt(market, data, YbtPrice(market, oracle), beforeEnd, pow);
    Value(quote, QuotePrice(market, oracle), data)
  }

  /** Each token price is its own pool share quoted in `price`. */
  predicate QuotedAt(v: Valuation, quote: PoolQuote, price: real) {
    v.ptTokenPrice == quote.poolPtPrice * price && v.ytTokenPrice == quote.poolYtPrice * price
  }

  /** The LP rates, times the LP supply, give back the pool reserves. */
  predicate BacksPool(rates: LpRates, data: MarketData) {
    && rates.lpPtRate * data.lpSupplyAmount as real == data.ptPoolAmount as real
    && rates.lpYtRate * data.lpSupplyAmount as real == data.ytPoolAmount as real
  }

  /** The token prices for a pool split quoted in `price`, with the LP
      backing rates of the pool. */
  function Value(quote: PoolQuote, price: real, data: MarketData): (r: Result<Valuation, Fault>)
    requires quote.poolPtPrice + quote.poolYtPrice == 1.0
    ensures r.Failure? <==> data.lpSupplyAmount == 0
    ensures r.Success? ==>
              && r.value.ptTokenPrice + r.value.ytTokenPrice == price
              && QuotedAt(r.value, quote, price)
              && BacksPool(r.value.rates, data)
              && r.value.mintDecimals == data.mintDecimals
  {
    var rates :- Rates(data.ptPoolAmount as real, data.ytPoolAmount as real, data.lpSupplyAmount as real);
    Success(Priced(quote, price, rates, data.mintDecimals))
  }

  /** What one PT and one YT together are worth: the base token's price
      times the yield-bearing token's price. */
  function QuotePrice(market: Market, oracle: OracleQuotes): real {
    BaseTokenPrice(market, oracle) * YbtPrice(market, oracle)
  }

  /** The pool shares quoted in `price`: together they are worth `price`. */
  function Priced(quote: PoolQuote, price: real, rates: LpRates, decimals: nat): (v: Valuation)
    requires quote.poolPtPrice + quote.poolYtPrice == 1.0
    ensures v.ptTokenPrice + v.ytTokenPrice == price
    ensures QuotedAt(v, quote, price)
    ensures v.rates == rates && v.mintDecimals == decimals
  {
    var pt := quote.poolPtPrice * price;
    var yt := quote.poolYtPrice * price;
    assert pt + yt == (quote.poolPtPrice + quote.poolYtPrice) * price;
    Valuation(pt, yt, rates, decimals)
  }

  /** With equal PT and YT reserves and a fundamental PT price strictly
      between 0 and 1, the market is valued, and PT and YT are valued at
      that price and its YT complement, each quoted in the base token times
      the yield-bearing token. */
  lemma EqualReservesMarketValue(market: Market, data: MarketData, oracle: OracleQuotes, beforeEnd: bool,
                                 pow: (real, real) -> real)
    requires data.ptPoolAmount == data.ytPoolAmount && data.lpSupplyAmount > 0
    requires MarketApy(market.marketConfig, YbtPrice(market, oracle), data.clock, beforeEnd, pow).Success?
    requires var curve := MarketApy(market.marketConfig, YbtPrice(market, oracle), data.clock, beforeEnd, pow);
             var ptPrice := PtPrice(market.marketConfig, curve.value.marketEndPrice);
             ptPrice.Success? && 0.0 < ptPrice.value < 1.0
    requires var c := MarketConcentration(data.clock.solanaTimestamp, market);
             c.Success? && data.ptPoolAmount as real + c.value > 0.0
    ensures GetMarketValue(market, data, oracle, beforeEnd, pow).Success?
    ensures var curve := MarketApy(market.marketConfig, YbtPrice(market, oracle), data.clock, beforeEnd, pow);
            var ptPrice := PtPrice(market.marketConfig, curve.value.marketEndPrice).value;
            var quote := PoolQuoteAt(market, data, YbtPrice(market, oracle), beforeEnd, pow).value;
            && quote.poolPtPrice == ptPrice && quote.poolYtPrice == YtPrice(ptPrice)
            && QuotedAt(GetMarketValue(market, data, oracle, beforeEnd, pow).value, quote, QuotePrice(market, oracle))
  {
    EqualReservesPoolQuote(market, data, YbtPrice(market, oracle), beforeEnd, pow);
  }

  /** With equal reserves the pool quote splits at the fundamental PT price. */
  lemma EqualReservesPoolQuote(market: Market, data: MarketData, ybt: real, beforeEnd: bool,
                               pow: (real, real) -> real)
    requires data.ptPoolAmount == data.ytPoolAmount
    requires MarketApy(market.marketConfig, ybt, data.clock, beforeEnd, pow).Success?
    requires var curve := MarketApy(market.marketConfig, ybt, data.clock, beforeEnd, pow);
             var ptPrice := PtPrice(market.marketConfig, curve.value.marketEndPrice);
             ptPrice.Success? && 0.0 < ptPrice.value < 1.0
    requires var c := MarketConcentration(data.clock.solanaTimestamp, market);
             c.Success? && data.ptPoolAmount as real + c.value > 0.0
    ensures var curve := MarketApy(market.marketConfig, ybt, data.clock, beforeEnd, pow);
            var ptPrice := PtPrice(market.marketConfig, curve.value.marketEndPrice).value;
            var quote := PoolQuoteAt(market, data, ybt, beforeEnd, pow);
            quote.Success? && quote.value.poolPtPrice == ptPrice && quote.value.poolYtPrice == YtPrice(ptPrice)
  {
    var curve := MarketApy(market.marketConfig, ybt, data.clock, beforeEnd, pow);
    var ptPrice := PtPrice(market.marketConfig, curve.value.marketEndPrice).value;
    var c := MarketConcentration(data.clock.solanaTimestamp, market).value;
    var amount := data.ptPoolAmount as real;
    EqualReservesQuoteFundamental(c, amount, ptPrice);
    assert PoolQuoteAt(market, data, ybt, beforeEnd, pow) == PoolSplit(c, amount, amount, ptPrice, 1.0 - ptPrice);
  }

  /** A linear-decay market's token prices are its bare pool shares, and
      they sum to 1. */
  lemma LinearDecayQuotedAtPar(market: Market, data: MarketData, oracle: OracleQuotes, beforeEnd: bool,
                               pow: (real, real) -> real)
    requires KindOf(market.marketConfig.marketType) == LinearDecay
    requires GetMarketValue(market, data, oracle, beforeEnd, pow).Success?
    ensures var v := GetMarketValue(market, data, oracle, beforeEnd, pow).value;
            v.ptTokenPrice + v.ytTokenPrice == 1.0
  {
  }

  /** A fixed-accrual market whose SY mint has no oracle feed is valued
      at 0 on both tokens. */
  lemma UnquotedMintValuedAtZero(market: Market, data: MarketData, oracle: OracleQuotes, beforeEnd: bool,
                                 pow: (real, real) -> real)
    requires KindOf(market.marketConfig.marketType) == FixedAccrual
    requires market.tokenSyMintAddress != OracleQuotedMint
    requires GetMarketValue(market, data, oracle, beforeEnd, pow).Success?
    ensures GetMarketValue(market, data, oracle, beforeEnd, pow).value.ptTokenPrice == 0.0
    ensures GetMarketValue(market, data, oracle, beforeEnd, pow).value.ytTokenPrice == 0.0
  {
  }

  /** Past maturity a linear-decay market reports its raw start price as
      the end price, without dividing it by the price base, so its PT
      price settles at `1 / priceBase` rather than at 1. */
  lemma PastMaturityPtPrice(config: MarketConfig, spot: real, clock: Clock, beforeEnd: bool,
                            pow: (real, real) -> real)
    requires KindOf(config.marketType) == LinearDecay
    requires clock.solanaTimestamp > config.endTime
    requires config.priceBase > 0 && config.startPrice != 0
    ensures MarketApy(config, spot, clock, beforeEnd, pow).Success?
    ensures var endPrice := MarketApy(config, spot, clock, beforeEnd, pow).value.marketEndPrice;
            PtPrice(config, endPrice) == Success(1.0 / config.priceBase as real)
  {
    assert MarketApy(config, spot, clock, beforeEnd, pow) == Success(Curve(0.0, config.startPrice as real, 1.0));
    PtPriceAtRawStart(config);
  }

  /** Priced against its own raw start price, PT is worth `1 / priceBase`. */
  lemma PtPriceAtRawStart(config: MarketConfig)
    requires config.priceBase > 0 && config.startPrice != 0
    ensures PtPrice(config, config.startPrice as real) == Success(1.0 / config.priceBase as real)
  {
    var base := config.priceBase as real;
    var start := config.startPrice as real;
    assert start / base / start == 1.0 / base;
    TruncateOnGrid(1, base);
    assert TruncateToBase(1.0 / base, base) == 1.0 / base;
  }
}
