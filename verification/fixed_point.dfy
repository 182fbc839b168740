/** Exact decimal arithmetic with the explicit truncation points of the
    pricing code. Amounts are exact rationals; `Floor` rounds toward
    negative infinity like decimal.js `floor()`. */
module FixedPoint {

  /** True when `x` has no fractional part. */
  predicate IsInteger(x: real) {
    x == x.Floor as real
  }

  /** `p` is a whole number of `1 / base` steps, i.e. `p * base` is the raw
      integer the on-chain program would store. */
  predicate OnGrid(p: real, base: real) {
    IsInteger(p * base)
  }

  /** `p` is `x` truncated down by less than one `1 / base` step. */
  predicate TruncatedFrom(p: real, x: real, base: real)
    requires base > 0.0
  {
    p <= x < p + 1.0 / base
  }

  /** The greatest integer not above `x`. */
  function Floor(x: real): (r: int)
    ensures r as real <= x < r as real + 1.0
  {
    x.Floor
  }

  /** `x` truncated down to a whole number of `1 / base` steps: the decimal
      image of the on-chain `floor(x * base) / base`. */
  function TruncateToBase(x: real, base: real): (p: real)
    requires base > 0.0
    ensures OnGrid(p, base)
    ensures p <= x < p + 1.0 / base
    ensures p * base == Floor(x * base) as real
  {
    var units := Floor(x * base);
    UnitsOnGrid(units, base);
    assert units as real / base <= x < units as real / base + 1.0 / base by {
      assert units as real <= x * base < units as real + 1.0;
    }
    units as real / base
  }

  /** An integer count of units divided by the base lies on the grid. */
  lemma UnitsOnGrid(units: int, base: real)
    requires base > 0.0
    ensures units as real / base * base == units as real
    ensures OnGrid(units as real / base, base)
  {
  }

  /** Truncating a value already on the grid returns it unchanged. */
  lemma TruncateOnGrid(units: int, base: real)
    requires base > 0.0
    ensures TruncateToBase(units as real / base, base) == units as real / base
  {
    UnitsOnGrid(units, base);
    assert Floor(units as real / base * base) == units;
  }

  /** `10^n`, the divisor that turns a raw token amount with `n` decimals
      into human units. */
  function Pow10(n: nat): (r: real)
    ensures r >= 1.0
    ensures n > 0 ==> r >= 10.0
  {
    if n == 0 then 1.0 else 10.0 * Pow10(n - 1)
  }

  /** A floored value moves with its argument. */
  lemma FloorMonotone(x: real, y: real)
    requires x <= y
    ensures Floor(x) <= Floor(y)
  {
    assert (Floor(x) as real) < (Floor(y) as real) + 1.0;
  }

  /** Dividing by a positive base keeps order. */
  lemma DivideMonotone(x: real, y: real, base: real)
    requires base > 0.0 && x <= y
    ensures x / base <= y / base
  {
    assert y / base - x / base == (y - x) / base;
  }

  /** Truncation to the grid is monotone. */
  lemma TruncateMonotone(x: real, y: real, base: real)
    requires base > 0.0 && x <= y
    ensures TruncateToBase(x, base) <= TruncateToBase(y, base)
  {
    ScaleMonotone(x, y, base);
    FloorMonotone(x * base, y * base);
    DivideMonotone(Floor(x * base) as real, Floor(y * base) as real, base);
  }

  /** Multiplying by a positive base keeps order. */
  lemma ScaleMonotone(x: real, y: real, base: real)
    requires base > 0.0 && x <= y
    ensures x * base <= y * base
  {
    assert y * base - x * base == (y - x) * base;
  }
}
