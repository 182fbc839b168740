/** The market snapshot the pricing code consumes: the on-chain market
    configuration, its pool configuration and the chain clock. All fields
    hold the raw on-chain integers. */
module MarketState {

  /** The two market families. On chain the tag is an integer and every
      value other than 0 selects linear decay. */
  datatype MarketKind = FixedAccrual | LinearDecay

  function KindOf(marketType: int): (k: MarketKind)
    ensures k == FixedAccrual <==> marketType == 0
  {
    if marketType == 0 then FixedAccrual else LinearDecay
  }

  datatype MarketConfig = MarketConfig(
    marketType: int,
    startTime: int,
    endTime: int,
    startPrice: int,
    initialEndPrice: int,
    priceBase: nat,
    compoundingPeriod: int,
    updateSkipTime: int,
    lastUpdateTime: int,
    lastUpdateEpoch: int,
    startEpoch: int,
    marketApy: int,
    marketSolPrice: int,
    marketEndPrice: int)

  datatype PoolConfig = PoolConfig(initialConcentration: int, maturityConcentration: int)

  datatype Market = Market(marketConfig: MarketConfig, poolConfig: PoolConfig, tokenSyMintAddress: string)

  /** The fields of the clock sysvar the pricing code reads. */
  datatype Clock = Clock(solanaTimestamp: int, epoch: int, epochStartTimestamp: int)

  /** Why a value is undefined. Each case is a division by zero where
      decimal.js would produce Infinity or NaN instead of a price. */
  datatype Fault =
    | ZeroPriceBase
    | ZeroMarketDuration
    | ZeroEpochSpan
    | ZeroStartPrice
    | ZeroEndPrice
    | ZeroYtPrice
    | ZeroVirtualPt
    | PoolPriceMinusOne
    | ZeroLpSupply
}
