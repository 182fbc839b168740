/** The concentration curve of the PT/YT pool: the virtual reserve added
    to both sides of the bonding curve, moving linearly from its initial
    to its maturity value over the life of the market. */
module Concentration {
  import opened Wrappers
  import opened MarketState
  import opened FixedPoint

  /** `x` lies in the closed interval spanned by `a` and `b`, whichever is larger. */
  predicate Between(x: real, a: real, b: real) {
    (a <= x <= b) || (b <= x <= a)
  }

  /** The concentration at chain time `now`. A zero maturity concentration
      keeps the curve flat; at or after the end time it is pinned to the
      maturity value; before that it is interpolated from the start time.
      The only undefined case is interpolating over a zero-length market. */
  function MarketConcentration(now: int, market: Market): (r: Result<real, Fault>)
    ensures market.poolConfig.maturityConcentration == 0 ==>
                r == Success(market.poolConfig.initialConcentration as real)
    ensures market.poolConfig.maturityConcentration != 0 && market.marketConfig.endTime <= now ==>
                r == Success(market.poolConfig.maturityConcentration as real)
    ensures r.Failure? <==>
              && market.poolConfig.maturityConcentration != 0
              && now < market.marketConfig.endTime
              && market.marketConfig.startTime == market.marketConfig.endTime
    ensures now == market.marketConfig.startTime < market.marketConfig.endTime ==>
                r == Success(market.poolConfig.initialConcentration as real)
    ensures market.marketConfig.startTime <= now ==>
                r.Success? && Between(r.value, market.poolConfig.initialConcentration as real,
                                                 market.poolConfig.maturityConcentration as real)
  {
    var initial := market.poolConfig.initialConcentration as real;
    var maturity := market.poolConfig.maturityConcentration as real;
    var startTime := market.marketConfig.startTime;
    var endTime := market.marketConfig.endTime;
    if maturity == 0.0 then
      Success(initial)
    else if endTime <= now then
      Success(maturity)
    else if endTime == startTime then
      Failure(ZeroMarketDuration)
    else
      InterpolationBounds(initial, maturity, (now - startTime) as real, (endTime - startTime) as real);
      Success(initial + (maturity - initial) * (now - startTime) as real / (endTime - startTime) as real)
  }

  /** A linear interpolation at a fraction `t / total` in [0, 1] stays
      between its two end points. */
  lemma InterpolationBounds(a: real, b: real, t: real, total: real)
    requires total != 0.0
    ensures 0.0 == t ==> a + (b - a) * t / total == a
    ensures 0.0 <= t <= total ==> Between(a + (b - a) * t / total, a, b)
  {
    if 0.0 < t <= total {
      if a <= b {
        FractionBounds(b - a, t, total);
      } else {
        FractionBounds(a - b, t, total);
        assert (b - a) * t == -((a - b) * t);
        assert (b - a) * t / total == -((a - b) * t / total);
      }
    }
  }

  /** A non-negative amount scaled by a fraction in [0, 1] stays between 0
      and the amount. */
  lemma FractionBounds(c: real, t: real, total: real)
    requires c >= 0.0 && 0.0 <= t <= total && total > 0.0
    ensures 0.0 <= c * t / total <= c
  {
    if c > 0.0 {
      ScaleMonotone(0.0, t, c);
      ScaleMonotone(t, total, c);
      assert t * c == c * t && total * c == c * total;
      DivideMonotone(0.0, c * t, total);
      DivideMonotone(c * t, c * total, total);
      assert c * total / total == c;
    }
  }

  /** Between its start time and any later instant the concentration moves
      monotonically toward the maturity concentration: it never decreases
      when the maturity value is the larger one and never increases when it
      is the smaller one. */
  lemma ConcentrationMonotone(market: Market, t1: int, t2: int)
    requires market.marketConfig.startTime <= t1 <= t2
    ensures MarketConcentration(t1, market).Success? && MarketConcentration(t2, market).Success?
    ensures market.poolConfig.initialConcentration <= market.poolConfig.maturityConcentration ==>
                MarketConcentration(t1, market).value <= MarketConcentration(t2, market).value
    ensures market.poolConfig.maturityConcentration <= market.poolConfig.initialConcentration ==>
                MarketConcentration(t2, market).value <= MarketConcentration(t1, market).value
  {
    var s := market.marketConfig.startTime;
    var e := market.marketConfig.endTime;
    var initial := market.poolConfig.initialConcentration as real;
    var maturity := market.poolConfig.maturityConcentration as real;
    if market.poolConfig.maturityConcentration != 0 && t2 < e {
      var total := (e - s) as real;
      var d1 := (t1 - s) as real;
      var d2 := (t2 - s) as real;
      assert MarketConcentration(t1, market).value == initial + (maturity - initial) * d1 / total;
      assert MarketConcentration(t2, market).value == initial + (maturity - initial) * d2 / total;
      InterpolationMonotone(initial, maturity, d1, d2, total);
    } else if market.poolConfig.maturityConcentration != 0 && t1 < e {
      assert MarketConcentration(t2, market).value == maturity;
      assert Between(MarketConcentration(t1, market).value, initial, maturity);
    }
  }

  /** Interpolating further along moves toward the far end point. */
  lemma InterpolationMonotone(a: real, b: real, d1: real, d2: real, total: real)
    requires total > 0.0 && 0.0 <= d1 <= d2
    ensures a <= b ==> a + (b - a) * d1 / total <= a + (b - a) * d2 / total
    ensures b <= a ==> a + (b - a) * d2 / total <= a + (b - a) * d1 / total
  {
    if a < b {
      ScaleMonotone(d1, d2, b - a);
      assert (b - a) * d1 == d1 * (b - a) && (b - a) * d2 == d2 * (b - a);
      DivideMonotone((b - a) * d1, (b - a) * d2, total);
    } else if b < a {
      ScaleMonotone(d1, d2, a - b);
      assert (b - a) * d1 == -(d1 * (a - b));
      assert (b - a) * d2 == -(d2 * (a - b));
      DivideMonotone((b - a) * d2, (b - a) * d1, total);
    }
  }
}
