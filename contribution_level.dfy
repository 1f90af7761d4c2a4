/**
 * The normalised contribution level of one alignment step, kept as an integer percent:
 * a level of `r` stands for `r / 100`. "No data" is `None`.
 */
module ContributionLevels {
  import opened Wrappers

  /**
   * `r` is the rational `n / d` rounded to the nearest integer with halves rounded up,
   * i.e. `r - 1/2 <= n / d < r + 1/2` (the rounding of `floor(n / d + 1/2)`),
   * with both sides multiplied by `2 * |d|`.
   */
  ghost predicate IsRoundHalfUp(n: int, d: int, r: int)
    requires d != 0
  {
    if d > 0 then (2 * r - 1) * d <= 2 * n < (2 * r + 1) * d
    else (2 * r - 1) * -d <= -2 * n < (2 * r + 1) * -d
  }

  /** `n / d` rounded half up, computed on integers. */
  function RoundHalfUp(n: int, d: int): (r: int)
    requires d != 0
    ensures IsRoundHalfUp(n, d, r)
  {
    var p, q := if d > 0 then n else -n, if d > 0 then d else -d;
    var r := (2 * p + q) / (2 * q);
    assert 2 * p + q == 2 * q * r + (2 * p + q) % (2 * q);
    r
  }

  /** Cancels a positive factor from both sides of a strict inequality. */
  lemma CancelPositive(a: int, b: int, q: int)
    requires q > 0 && a * q < b * q
    ensures a < b
  {
  }

  /** At most one integer is `n / d` rounded half up. */
  lemma RoundHalfUpUnique(n: int, d: int, r1: int, r2: int)
    requires d != 0 && IsRoundHalfUp(n, d, r1) && IsRoundHalfUp(n, d, r2)
    ensures r1 == r2
  {
    var q := if d > 0 then d else -d;
    var p := if d > 0 then n else -n;
    assert (2 * r1 - 1) * q <= 2 * p < (2 * r1 + 1) * q;
    assert (2 * r2 - 1) * q <= 2 * p < (2 * r2 + 1) * q;
    CancelPositive(2 * r2 - 1, 2 * r1 + 1, q);
    CancelPositive(2 * r1 - 1, 2 * r2 + 1, q);
  }

  /**
   * The level of a step contributing `sc` relative to the maximum `max`: no data when
   * `max` is 0, otherwise the percent `100 * sc / max` rounded half up.
   */
  function ContributionLevel(sc: int, max: int): (r: Option<int>)
    ensures r.None? <==> max == 0
    ensures r.Some? ==> IsRoundHalfUp(100 * sc, max, r.value)
  {
    if max == 0 then None else Some(RoundHalfUp(100 * sc, max))
  }

  /** A contribution no larger in magnitude than the maximum has a level in [-100, 100]. */
  lemma LevelBounded(sc: int, max: int)
    requires max != 0
    requires -max <= sc <= max || max <= sc <= -max
    ensures ContributionLevel(sc, max).Some?
    ensures -100 <= ContributionLevel(sc, max).value <= 100
  {
    var r := ContributionLevel(sc, max).value;
    var q := if max > 0 then max else -max;
    var p := if max > 0 then 100 * sc else -100 * sc;
    assert (2 * r - 1) * q <= 2 * p < (2 * r + 1) * q;
    assert -100 * q <= p <= 100 * q;
    CancelPositive(2 * r - 1, 201, q);
    CancelPositive(-201, 2 * r + 1, q);
  }

  /**
   * The maximum itself has level 100, its opposite level -100, and a zero contribution
   * level 0: a genuine zero, distinct from the no-data level of a zero maximum.
   */
  lemma LevelOfExtremes(max: int)
    requires max != 0
    ensures ContributionLevel(max, max) == Some(100)
    ensures ContributionLevel(-max, max) == Some(-100)
    ensures ContributionLevel(0, max) == Some(0)
  {
    var q := if max > 0 then max else -max;
    assert IsRoundHalfUp(100 * max, max, 100) by {
      assert 199 * q <= 200 * q < 201 * q;
    }
    RoundHalfUpUnique(100 * max, max, 100, ContributionLevel(max, max).value);
    assert IsRoundHalfUp(100 * -max, max, -100) by {
      assert -201 * q <= -200 * q < -199 * q;
    }
    RoundHalfUpUnique(100 * -max, max, -100, ContributionLevel(-max, max).value);
    assert IsRoundHalfUp(0, max, 0);
    RoundHalfUpUnique(0, max, 0, ContributionLevel(0, max).value);
  }
}
