# Sandglass market pricing and valuation, modelled in Dafny

This project models the pricing and valuation arithmetic of a Sandglass
yield-tokenization market on Eclipse. A market splits a yield-bearing
token into a Principal Token (PT) and a Yield Token (YT). Given a snapshot
of one market, the code does four things:

- it interpolates the concentration (the virtual reserve) of the PT/YT pool;
- it derives the market's end price from its yield curve, which is either
  fixed-APY accrual or linear decay;
- it prices PT from the end price, with YT as the complement, and splits a
  bonding-curve pool price into PT and YT shares;
- it values wallet positions. Staked records and token balances are folded
  into per-wallet rows of human-scaled amounts.

The decimal.js values of the code are exact `real`s here, and its `floor()`
is Dafny's `.Floor`. Where decimal.js would produce Infinity or NaN from a
division by zero and that value would reach the output, the model returns
`Failure(Fault)` instead. In two places the code absorbs an infinity into a
finite answer, and the model gives that answer too:

- a zero end price with a positive start price clamps the PT price to 1;
- a zero PT price gives the pool split (0, 1).

Two such cases are not followed, and the model reports a failure for each
(see "## Left out"):

- the infinite end price of a zero-length linear-decay market before its start;
- the infinite compounding exponents of a fixed-accrual market whose epoch
  span is zero.

Modules, in dependency order:

- `Wrappers`: `Option` and `Result`.
- `FixedPoint`: `Floor`, and truncation to a whole number of `1 / priceBase` units.
- `MarketState`: the market configuration, pool configuration, clock and faults.
- `Concentration`: `getMarketConcentration`.
- `YieldCurve`: `getMarketAPY`. Both branches are modelled. The fractional
  power is a parameter `pow`. The wall-clock "before end" test is a boolean
  `beforeEnd`.
- `TokenPricer`: `getPTPrice` and `getYTPrice`.
- `BondingCurve`: `getPoolPrice` and the LP rates.
- `MarketValue`: the composition in `getMarketValue`, and the oracle
  dispatch of `getYBTPrice` / `getBaseTokenPrice`. The oracle quotes are inputs.
- `Accumulator`: `updateResultAccount`, `updateResultUserTokens`, and the
  folds built on them.
- `Valuation`: the per-record logic of the `getSnapshot` and
  `getUserTokens` loops, written as folds over sequences of records.

## Boundary behaviour

- At the start time, a linear-decay market's end price is
  `initialEndPrice / priceBase` (`YieldCurve.LinearDecayAtStart`).
- Exactly at the end time it is `startPrice / priceBase`, because the
  interpolating branch is taken while `timeDiff <= marketTime`
  (`YieldCurve.LinearDecayAtEnd`).
- Past the end time it is the raw `startPrice`, not divided by the price
  base. From then on the PT price is `1 / priceBase`, not 1
  (`MarketValue.PastMaturityPtPrice`).
- A zero divisor (price base, LP supply, market duration, epoch span)
  raises no error in the code: decimal.js returns Infinity or NaN. The
  model marks the divisions that produce such values as `Failure`, except in
  the absorbed cases listed at the top.

## Model

| member | source | states |
|---|---|---|
| Concentration.MarketConcentration | src/sandglassUtls.ts:208-228 | The curve is flat (initial value) when the maturity concentration is 0. Otherwise it is pinned to the maturity value once `endTime <= now`, and it equals the initial value at `now == startTime < endTime`. From the start time on it is defined and lies between the initial and maturity values. It is undefined exactly when it would interpolate over a zero-length market. |
| Concentration.ConcentrationMonotone | src/sandglassUtls.ts:212-227 | For `startTime <= t1 <= t2` both values are defined. The concentration never decreases when maturity >= initial, and never increases when maturity <= initial. |
| Concentration.InterpolationBounds | src/sandglassUtls.ts:224-225 | The linear interpolation equals its start point at elapsed time 0. It stays between its two end points for an elapsed fraction in [0, 1]. |
| Concentration.InterpolationMonotone | src/sandglassUtls.ts:224-225 | For a positive duration, a later elapsed time gives an interpolated value that is closer to (or at) the far end point. |
| YieldCurve.Cached | src/sandglassUtls.ts:247-249 | Each cached value (APY, reference price, end price) times `priceBase` gives back the raw on-chain integer. |
| YieldCurve.EpochCount | src/sandglassUtls.ts:262-284 | The count is 0 unless a refit is due. When due in epoch mode it is `epoch - startEpoch`. When due in time mode, count × `compoundingPeriod` is `now - startTime`. |
| YieldCurve.CompoundingExponents | src/sandglassUtls.ts:266-284 | It is undefined exactly in epoch mode with `epochStartTimestamp == startTime`. In time mode, yearEpoch × period is a year and marketEpoch × period is the market's lifetime. In epoch mode, yearEpoch × span is year × count and marketEpoch × span is lifetime × count. |
| YieldCurve.FixedAccrualCurve | src/sandglassUtls.ts:246-303 | It fails with `ZeroPriceBase` exactly when the price base is 0. The cached curve is returned unchanged when the market is not before its end, when the cached reference price is at least the spot quote, when no refit is due, or when the step count is not positive. When the market is live, the spot quote is above the cached reference price and the step count is positive, it fails exactly when the exponents are undefined or the start price is 0; otherwise it returns `Refit` at that step count and those exponents. Any curve other than the cached one is that refit. |
| YieldCurve.Refit | src/sandglassUtls.ts:286-301 | The refitted reference price is the spot quote. APY and end price lie on the price-base grid. The APY is the compounded yearly growth minus 1, truncated down by less than one grid step. The end price is the growth compounded over the market's lifetime times `startPrice / priceBase`, truncated down by less than one grid step. |
| YieldCurve.LinearDecayCurve | src/sandglassUtls.ts:304-322 | The APY is always 0 and the reference price 1. Past the end time the end price is the raw `startPrice`. Up to the end time it is on the price-base grid, within one grid step below the interpolated price. It fails exactly when it would interpolate with a zero-length market or a zero price base. |
| YieldCurve.MarketApy | src/sandglassUtls.ts:230-323 | A fixed-accrual market gets exactly the fixed-accrual curve and a linear-decay market exactly the linear-decay curve at the chain time. A linear-decay market always quotes APY 0 and reference price 1, and past its end time it quotes the raw start price. A fixed-accrual market that is not before its end keeps its cached curve. A zero price base fails wherever the price base is divided by. |
| YieldCurve.LinearDecayAtStart | src/sandglassUtls.ts:313-319 | At the start time the end price is `initialEndPrice / priceBase`. |
| YieldCurve.LinearDecayAtEnd | src/sandglassUtls.ts:313-319 | Exactly at the end time the end price is `startPrice / priceBase`. |
| YieldCurve.LinearDecayMonotone | src/sandglassUtls.ts:313-319 | Between start and end time the end price moves monotonically from `initialEndPrice` toward `startPrice`. |
| TokenPricer.PtPrice | src/sandglassUtls.ts:325-335 | It fails with `ZeroPriceBase` exactly when the price base is 0. Any price returned is at most 1 and lies on the price-base grid. It is non-negative for a non-negative start price and a positive end price. A ratio of at least 1 is clamped to 1. Below that, the price is the ratio truncated down by less than one grid step. A zero end price gives 1 when the start price is positive and is undefined otherwise. |
| TokenPricer.CapReached | src/sandglassUtls.ts:328-331 | Truncating a ratio >= 1 to a whole-number price base stays >= 1, so the clamp catches every such ratio. |
| TokenPricer.YtPrice | src/sandglassUtls.ts:337-339 | YT and PT prices sum to 1. |
| TokenPricer.TokenPricesInUnitInterval | src/sandglassUtls.ts:325-339 | For a non-negative start price and a positive end price, both PT and YT prices lie in [0, 1] and sum to 1. |
| TokenPricer.NinetyPercentScenario | src/sandglassUtls.ts:325-339 | With `priceBase = 1_000_000`, `startPrice = 900_000` and end price 1, PT is 0.9 and YT is 0.1. |
| BondingCurve.PoolSplit | src/sandglassUtls.ts:350-358 | The PT and YT shares sum to 1. A zero YT price or a zero virtual PT reserve is undefined. A zero PT price gives the split (0, 1). With positive prices and virtual reserves the pool price is positive and the PT share is strictly between 0 and 1. The pool price × virtualPt × ytPrice equals virtualYt × ptPrice. |
| BondingCurve.PoolPrice | src/sandglassUtls.ts:341-359 | The shares sum to 1. The split is taken at the concentration of the given time, and the price is undefined when that concentration is. |
| BondingCurve.PoolPtPriceClosedForm | src/sandglassUtls.ts:353-355 | With positive prices and reserves, the PT share is `virtualYt·ptPrice / (virtualYt·ptPrice + virtualPt·ytPrice)`. |
| BondingCurve.EqualReservesQuoteFundamental | src/sandglassUtls.ts:350-356 | With equal PT and YT reserves and prices `p` and `1 - p` for `0 < p < 1`, the PT share equals `p`. |
| BondingCurve.HundredReservesScenario | src/sandglassUtls.ts:349-358 | Reserves of 100/100, concentration 10 and prices 0.9/0.1 give a pool price of 9 and shares of 0.9/0.1. |
| BondingCurve.Rates | src/sandglassUtls.ts:42-43 | The rates are undefined exactly when the LP supply is 0. Otherwise each rate × LP supply gives back its pool reserve. |
| MarketValue.GetMarketValue | src/sandglassUtls.ts:15-46 | It is undefined exactly when the pool quote is or the LP supply is 0. Otherwise the PT token price is the pool's PT share × the base-token price × the yield-bearing-token price, and the YT token price is the YT share × the same. PT plus YT token price equals the base-token price × the yield-bearing-token price. The LP rates times the LP supply give back the pool reserves. Mint decimals pass through. A zero LP supply or a zero price base is undefined. |
| MarketValue.PoolQuoteAt | src/sandglassUtls.ts:25-37 | It is undefined when the current curve or the PT price at its end price is. Otherwise it is the pool split at the current chain time, with the market's PT and YT reserves, the PT price of the current end price, and that price's YT complement. The shares sum to 1. A zero price base is undefined. |
| MarketValue.EqualReservesMarketValue | src/sandglassUtls.ts:15-46 | With equal PT and YT reserves, a positive virtual reserve, a positive LP supply and a PT price strictly between 0 and 1, the market value is defined. PT is valued at the PT price and YT at its complement, each × the base-token price × the yield-bearing-token price. |
| MarketValue.EqualReservesPoolQuote | src/sandglassUtls.ts:25-37 | With equal PT and YT reserves, a positive virtual reserve and a PT price strictly between 0 and 1, the pool quote is defined and splits at exactly that PT price and its YT complement. |
| MarketValue.Value | src/sandglassUtls.ts:39-45 | It is undefined exactly when the LP supply is 0. Otherwise each token price is its own pool share × the quoted price, the token prices sum to the quoted price, the rates give back the reserves, and the decimals pass through. |
| MarketValue.Priced | src/sandglassUtls.ts:39-40 | The PT token price is the PT share × `price` and the YT token price the YT share × `price`. Shares that sum to 1 give token prices that sum to `price`. |
| MarketValue.YbtPrice | src/sandglassUtls.ts:361-371 | The contract is the dispatch table: a linear-decay market is quoted at 1; a fixed-accrual market gets the oracle's yield-bearing-token quote when its SY mint is the one with a feed, and 0 otherwise. |
| MarketValue.BaseTokenPrice | src/sandglassUtls.ts:373-383 | The contract is the dispatch table: a linear-decay market is quoted at 1; a fixed-accrual market gets the oracle's base-token quote when its SY mint is the one with a feed, and 0 otherwise. |
| MarketValue.LinearDecayQuotedAtPar | src/sandglassUtls.ts:361-383 | A linear-decay market is quoted at 1 for both oracle prices, so its PT and YT token prices sum to 1. |
| MarketValue.UnquotedMintValuedAtZero | src/sandglassUtls.ts:361-383 | A fixed-accrual market whose SY mint has no oracle feed values both tokens at 0. |
| MarketValue.PastMaturityPtPrice | src/sandglassUtls.ts:305-335 | For any spot quote, power function, wall-clock flag and clock past the end time, a linear-decay market with a non-zero start price has PT price `1 / priceBase`, not 1. |
| FixedPoint.TruncateToBase | src/sandglassUtls.ts:328 | `floor(x·base)/base` lies on the grid, at most one grid step below `x`. It times `base` is `floor(x·base)`. |
| FixedPoint.TruncateMonotone | src/sandglassUtls.ts:316-319 | Truncation to the grid preserves order. |
| Accumulator.ScaledInverse | src/index.ts:258-263 | Each scaled amount times `10^decimals` gives back the raw amount. |
| Accumulator.FindIndex | src/index.ts:252 | It finds the first row with the wallet, or reports none exactly when no row has it. |
| Accumulator.UpdateResultAccount | src/index.ts:242-275 | An absent wallet gets one new row in front, holding the scaled amounts, and the existing rows follow unchanged. A present wallet's row gets the scaled amounts added. The length and every other row are unchanged. |
| Accumulator.UpdateKeepsWalletsUnique | src/index.ts:252-272 | An update keeps wallet addresses unique. |
| Accumulator.UpdateHoldingOf | src/index.ts:252-272 | An update adds the scaled amounts to its wallet's total and leaves every other wallet's total unchanged. |
| Accumulator.AccumulateTotals | src/index.ts:59-124 | Folding records adds, to every wallet's total, exactly the scaled sum of that wallet's records. |
| Accumulator.AccumulateKeepsWalletsUnique | src/index.ts:59-124 | The fold keeps wallet addresses unique. |
| Accumulator.AccumulateRows | src/index.ts:252-265 | After the fold a wallet has a row exactly when it had one before or owns one of the records. |
| Accumulator.ContributionPermutation | src/index.ts:258-271 | The scaled per-wallet sum does not depend on the order of the records. |
| Accumulator.AccumulateOrderIndependent | src/index.ts:59-124 | Folding the same records in any order gives every wallet the same total. |
| Accumulator.UpdateResultUserTokens | src/index.ts:277-296 | The row keeps its wallet. A record of another wallet leaves the row unchanged. A record of its own wallet updates it exactly as the keyed update updates a one-row accumulator. |
| Accumulator.UserUpdateAddsScaled | src/index.ts:287-293 | On its own wallet, each of the five fields grows by the raw amount divided by `10^decimals`. |
| Accumulator.AccumulateUserTotals | src/index.ts:161-223 | Folding records into one row adds exactly that wallet's scaled records and ignores every other wallet's. |
| Accumulator.AccumulateUserMatchesAccumulate | src/index.ts:161-223 | From an empty row, the single-wallet fold gives the wallet the same totals as the keyed fold. |
| Valuation.StakedRaw | src/index.ts:60-65 | PT, YT and LP come straight from the stake. The LP's PT and YT backing is `floor(lp × rate)`: an integer less than one unit below the product. |
| Valuation.HeldRaw | src/index.ts:84-123 | A PT or YT balance fills only its own field. An LP balance fills the LP field, and its backing is the exact, unfloored product with each rate. |
| Valuation.NonEmptyStakesMembers | src/index.ts:59-67 | The kept staking records are exactly the stakes that are not all zero: every kept record is such a stake, and every such stake is kept. |
| Valuation.StakedEntries | src/index.ts:59-79 | There is one record per kept (not all-zero) stake, and no record is all zero. |
| Valuation.StakedEntriesContents | src/index.ts:59-79 | In order, the i-th record belongs to the i-th kept stake's wallet and holds that stake's raw amounts. |
| Valuation.HeldEntries | src/index.ts:83-124 | There is one record per token account. |
| Valuation.HeldEntriesContents | src/index.ts:83-124 | In order, the i-th record belongs to the i-th account's owner and holds its balance in the field of the account's kind. |
| Valuation.Snapshot | src/index.ts:49-124 | Wallet addresses in the snapshot are unique. |
| Valuation.SnapshotTotals | src/index.ts:59-124 | Each wallet's row is the scaled sum of its stake, PT, YT and LP records. |
| Valuation.EmptyStakeIgnored | src/index.ts:67 | An all-zero staking record, wherever it appears, leaves the snapshot unchanged. |
| Valuation.StakedEntriesPermutation | src/index.ts:59-79 | Reordering staking records reorders their records. |
| Valuation.HeldEntriesPermutation | src/index.ts:83-124 | Reordering token accounts reorders their records. |
| Valuation.SnapshotOrderIndependent | src/index.ts:59-124 | Per-wallet totals do not depend on the order of stakes or token accounts. |
| Valuation.StakedPlusHeldScenario | src/index.ts:61-94 | Staked PT 1_000_000 plus held PT 500_000 with 6 decimals value the wallet at 1.5 PT. |
| Valuation.UserTokens | src/index.ts:143-223 | The user's row keeps the user's address. It holds exactly the scaled sum of the user's own records. |
| Valuation.UserEntriesAreSnapshotEntries | src/index.ts:161-223 | The user view's records are the snapshot's records for a market where the user's records are the only ones. |
| Valuation.UserTokensMatchSnapshot | src/index.ts:161-223 | The user view gives the wallet the same totals as the snapshot does over the same records. |
| Valuation.ForeignRecordsIgnored | src/index.ts:287 | Records owned by another wallet leave the user's row at zero. |

## Left out

- RPC and decoding (`getSandglassAccountInfos`, `getTokenAccounts`,
  `getMarkets`, `getMarketData`, `getSandglassAccount`,
  `getUserWalletAmount`, `findSandglassAddress`). These are network fetches,
  Borsh/SPL layout decoding and program-address derivation. Their results
  are inputs to the model: the stakes and token accounts of the valuation
  folds, and `MarketData` for the market value.
- The PT mint in the YT and LP lookups (src/index.ts:197, src/index.ts:211).
  The user view passes the PT mint to all three balance lookups. Lookups are
  outside the model, so `Valuation.UserTokens` takes the three balances as
  separate inputs, the way the snapshot loop reads them.
- The `mintAmount` assignment (src/sandglassUtls.ts:162-171). It repeats
  the condition of the branch above it, so it is never reached. It belongs
  to decoding, and the amount is not used by the modelled code.
- Pyth oracle calls in `getYBTPrice` / `getBaseTokenPrice`. The two quotes
  are the inputs `OracleQuotes`. Only the dispatch on market type and SY mint
  is modelled.
- Fractional exponentiation (src/sandglassUtls.ts:287-300). It is
  transcendental, so it is the parameter `pow`, about which nothing is assumed.
- The wall clock `new Date()` (src/sandglassUtls.ts:251-254). It is the
  boolean parameter `beforeEnd`.
- decimal.js rounding. decimal.js rounds the result of every operation
  (addition, subtraction, multiplication, division and power) to 20
  significant digits. That rounding is not modelled; all arithmetic is exact.
- Orchestration and output: the loops over markets, `main`, JSON file output
  and connection setup.
- YieldCurve.FixedAccrualCurve: when the price base is positive, the
  contract says where failures can occur but does not name the fault. The
  fault names the first undefined division in the model's order. The code
  raises no error, and in the following case it reaches a finite price where the
  model fails. That case is epoch mode with `epochStartTimestamp ==
  startTime`, a positive epoch count, a positive market duration and
  `floor(spot · priceBase) > startPrice > 0`. There, the division by the
  zero epoch span (src/sandglassUtls.ts:273-274) makes both exponents
  infinite. The fitted growth per step is above 1, so the end price is
  infinite (:295-300). The PT price is then 0, YT 1 and the pool split
  (0, 1), so the market gets finite token prices whenever the virtual PT
  reserve is defined and non-zero. The model reports `ZeroEpochSpan`
  instead, so `MarketValue.GetMarketValue` fails on that input too.
- YieldCurve.LinearDecayCurve: a zero-length market (`startTime ==
  endTime`) is a failure whenever it would interpolate. In the code, at a
  time before the start with `initialEndPrice != startPrice`, the division
  by the zero duration gives an infinite end price. The PT price is then 0
  and YT 1. With `maturityConcentration == 0` and a non-zero virtual PT
  reserve, the pool split is (0, 1), so the market gets finite token
  prices. With any other maturity concentration, the same zero duration
  makes the concentration (src/sandglassUtls.ts:224) infinite or NaN, and
  the pool price is NaN.
  The model has no infinite end price and reports `ZeroMarketDuration`
  instead, so `MarketValue.GetMarketValue` fails on that input too.
- MarketValue.GetMarketValue: computes the pieces in sequence and stops at
  the first undefined one. The code computes every piece and returns
  whatever decimal.js produces, so a NaN token price can sit next to finite
  LP rates.
