/** Round-to-nearest-even to 53 significant bits, the rounding of IEEE 754 double arithmetic, is one of the
    roundings the sampler's results hold for, and accurate enough for the sampled share. Overflow to infinity is left out: nothing the sampler
    computes comes near it. */
module DoubleRounding {
  import opened Sampler
  import opened SampledShare

  const HALF_LIMIT: real := LIMIT / 2.0            // 2^52

  /** The nearest integer; of two equally near ones, the even one. */
  function NearestEven(x: real): int {
    var f := x.Floor;
    var fraction := x - f as real;
    if fraction < 0.5 || (fraction == 0.5 && f % 2 == 0) then f else f + 1
  }

  lemma NearestEvenIsMonotone(x: real, y: real)
    requires x <= y
    ensures x.Floor <= NearestEven(x) <= NearestEven(y)
    ensures x == x.Floor as real ==> NearestEven(x) == x.Floor
  {
    if x.Floor < y.Floor {
      assert NearestEven(x) <= x.Floor + 1 <= y.Floor <= NearestEven(y);
    }
  }

  /** Below 2^53: the value is doubled until it has 53 bits before the point, at most `halvings` times,
      rounded to an integer and halved back. Doubles allow 1074 halvings; the last ones lose precision
      gradually, as subnormal numbers do. */
  function RoundSmall(x: real, halvings: nat): real
    decreases halvings
  {
    if halvings == 0 || x >= HALF_LIMIT then NearestEven(x) as real
    else RoundSmall(2.0 * x, halvings - 1) / 2.0
  }

  /** From 2^53 on: the value is halved until it is below, rounded, and doubled back. */
  function RoundPositive(x: real, halvings: nat): real
    requires 0.0 <= x
    decreases x.Floor
  {
    if x < LIMIT then RoundSmall(x, halvings) else 2.0 * RoundPositive(x / 2.0, halvings)
  }

  function RoundToNearest(x: real, halvings: nat): real {
    if x >= 0.0 then RoundPositive(x, halvings) else -RoundPositive(-x, halvings)
  }

  lemma {:induction false} RoundSmallIsMonotone(x: real, y: real, halvings: nat)
    requires 0.0 <= x <= y <= LIMIT
    ensures 0.0 <= RoundSmall(x, halvings) <= RoundSmall(y, halvings) <= LIMIT
    decreases halvings
  {
    NearestEvenIsMonotone(x, y);
    NearestEvenIsMonotone(0.0, x);
    NearestEvenIsMonotone(y, LIMIT);
    if halvings > 0 && x < HALF_LIMIT {
      if y < HALF_LIMIT {
        RoundSmallIsMonotone(2.0 * x, 2.0 * y, halvings - 1);
      } else {
        RoundSmallIsMonotone(2.0 * x, LIMIT, halvings - 1);
        NearestEvenIsMonotone(HALF_LIMIT, y);
      }
    }
  }

  lemma {:induction false} RoundSmallKeepsIntegers(n: nat, halvings: nat)
    requires n <= EXACT_INTEGER_LIMIT
    ensures RoundSmall(n as real, halvings) == n as real
    decreases halvings
  {
    NearestEvenIsMonotone(n as real, n as real);
    if halvings > 0 && n as real < HALF_LIMIT {
      RoundSmallKeepsIntegers(2 * n, halvings - 1);
      assert (2 * n) as real == 2.0 * n as real;
    }
  }

  lemma {:induction false} RoundPositiveIsMonotone(x: real, y: real, halvings: nat)
    requires 0.0 <= x <= y
    ensures 0.0 <= RoundPositive(x, halvings) <= RoundPositive(y, halvings)
    ensures LIMIT <= x ==> LIMIT <= RoundPositive(x, halvings)
    decreases y.Floor
  {
    if y < LIMIT {
      RoundSmallIsMonotone(x, y, halvings);
    } else if x >= LIMIT {
      RoundPositiveIsMonotone(x / 2.0, y / 2.0, halvings);
      HalfIsLarge(x / 2.0, halvings);
    } else {
      RoundSmallIsMonotone(x, LIMIT, halvings);
      RoundPositiveIsMonotone(y / 2.0, y / 2.0, halvings);
      HalfIsLarge(y / 2.0, halvings);
    }
  }

  /** Nothing at or above 2^52 is rounded below it. */
  lemma {:induction false} HalfIsLarge(x: real, halvings: nat)
    requires HALF_LIMIT <= x
    ensures HALF_LIMIT <= RoundPositive(x, halvings)
    decreases x.Floor
  {
    if x < LIMIT {
      NearestEvenIsMonotone(HALF_LIMIT, x);
    } else {
      HalfIsLarge(x / 2.0, halvings);
    }
  }

  function Doubled(x: real, times: nat): real
    decreases times
  {
    if times == 0 then x else Doubled(2.0 * x, times - 1)
  }

  lemma HalfIsWithin(rounded: real, x: real, bound: real)
    requires -0.5 <= rounded - x <= 0.5 && HALF_LIMIT <= bound
    ensures IsWithin(rounded, x, bound)
  {
    var error := rounded - x;
    assert -HALF_LIMIT <= LIMIT * error <= HALF_LIMIT;
  }

  lemma NearestEvenIsClose(x: real, bound: real)
    requires HALF_LIMIT <= bound
    ensures IsWithin(NearestEven(x) as real, x, bound)
  {
    var rounded := NearestEven(x) as real;
    assert -0.5 <= rounded - x <= 0.5;
    HalfIsWithin(rounded, x, bound);
  }

  lemma ClosenessScales(rounded: real, x: real, bound: real)
    ensures IsWithin(rounded, x, bound) <==> IsWithin(2.0 * rounded, 2.0 * x, 2.0 * bound)
  {
    assert LIMIT * (2.0 * rounded - 2.0 * x) == 2.0 * (LIMIT * (rounded - x));
  }

  /** The result is within one part in 2^53 of any bound on the value that is above the subnormal range: of
      the value itself, if it is. */
  lemma {:induction false} RoundSmallIsClose(x: real, bound: real, halvings: nat)
    requires 0.0 <= x <= bound && x < LIMIT && Doubled(bound, halvings) >= HALF_LIMIT
    ensures IsWithin(RoundSmall(x, halvings), x, bound)
    decreases halvings
  {
    if halvings == 0 || x >= HALF_LIMIT {
      NearestEvenIsClose(x, bound);
    } else {
      RoundSmallIsClose(2.0 * x, 2.0 * bound, halvings - 1);
      ClosenessScales(RoundSmall(x, halvings), x, bound);
    }
  }

  lemma {:induction false} RoundPositiveIsClose(x: real, bound: real, halvings: nat)
    requires 0.0 <= x <= bound && Doubled(bound, halvings) >= HALF_LIMIT
    ensures IsWithin(RoundPositive(x, halvings), x, bound)
    decreases x.Floor
  {
    if x < LIMIT {
      RoundSmallIsClose(x, bound, halvings);
    } else {
      DoubledIsLarge(bound / 2.0, halvings);
      RoundPositiveIsClose(x / 2.0, bound / 2.0, halvings);
      ClosenessScales(RoundPositive(x / 2.0, halvings), x / 2.0, bound / 2.0);
    }
  }

  lemma {:induction false} DoubledIsLarge(x: real, times: nat)
    requires 0.0 <= x
    ensures Doubled(x, times) >= x
    decreases times
  {
    if times > 0 {
      DoubledIsLarge(2.0 * x, times - 1);
    }
  }

  /** So monotonicity, nesting of the sampled ids and absence of overflow are facts about the code's
      doubles (1074 halvings), and about any other binary format with 53 significant bits. */
  lemma RoundToNearestIsARounding(halvings: nat)
    ensures IsRounding(x => RoundToNearest(x, halvings))
  {
    var rnd := x => RoundToNearest(x, halvings);
    forall x: real, y: real | x <= y ensures rnd(x) <= rnd(y) {
      if x >= 0.0 {
        RoundPositiveIsMonotone(x, y, halvings);
      } else if y < 0.0 {
        RoundPositiveIsMonotone(-y, -x, halvings);
      } else {
        RoundPositiveIsMonotone(0.0, -x, halvings);
        RoundPositiveIsMonotone(0.0, y, halvings);
      }
    }
    forall x: real | 0.0 <= x <= LIMIT && x.Floor as real == x ensures rnd(x) == x {
      IntegersAreKept(x.Floor, halvings);
    }
  }

  lemma IntegersAreKept(n: nat, halvings: nat)
    requires n <= EXACT_INTEGER_LIMIT
    ensures RoundToNearest(n as real, halvings) == n as real
  {
    if n < EXACT_INTEGER_LIMIT {
      RoundSmallKeepsIntegers(n, halvings);
    } else {
      var half := EXACT_INTEGER_LIMIT / 2;
      RoundSmallKeepsIntegers(half, halvings);
      assert n as real / 2.0 == half as real;
      assert RoundPositive(n as real, halvings) == 2.0 * RoundPositive(half as real, halvings);
    }
  }

  lemma {:induction false} DoubledIsMonotone(x: real, y: real, times: nat)
    requires 0.0 <= x <= y
    ensures Doubled(x, times) <= Doubled(y, times)
    decreases times
  {
    if times > 0 {
      DoubledIsMonotone(2.0 * x, 2.0 * y, times - 1);
    }
  }

  /** Doubles have 1074 halvings, far more than the 52 that the share needs. */
  const ENOUGH_HALVINGS := 52

  lemma {:induction false} EnoughHalvings(x: real, times: nat, halvings: nat)
    requires 0.0 <= x && times <= halvings
    ensures Doubled(x, times) <= Doubled(x, halvings)
    decreases times
  {
    if times == 0 {
      DoubledIsLarge(x, halvings);
    } else {
      EnoughHalvings(2.0 * x, times - 1, halvings - 1);
    }
  }

  function Power2(n: nat): nat {
    if n == 0 then 1 else 2 * Power2(n - 1)
  }

  lemma {:induction false} PowersMultiply(m: nat, n: nat)
    ensures Power2(m + n) == Power2(m) * Power2(n)
    decreases m
  {
    if m > 0 {
      PowersMultiply(m - 1, n);
    }
  }

  lemma {:induction false} DoubledTimes(x: real, times: nat)
    ensures Doubled(x, times) == Power2(times) as real * x
    decreases times
  {
    if times > 0 {
      DoubledTimes(2.0 * x, times - 1);
      assert Power2(times) as real == 2.0 * Power2(times - 1) as real;
    }
  }

  lemma PowerOf52()
    ensures Power2(52) == 0x10_0000_0000_0000
  {
    PowersMultiply(13, 13);
    PowersMultiply(26, 26);
    assert Power2(13) == 0x2000;
  }

  lemma OneIsDoubledEnough()
    ensures Doubled(1.0, ENOUGH_HALVINGS) == HALF_LIMIT
  {
    DoubledTimes(1.0, ENOUGH_HALVINGS);
    PowerOf52();
  }

  lemma RoundToNearestIsAccurate(halvings: nat)
    requires halvings >= ENOUGH_HALVINGS
    ensures IsAccurate(x => RoundToNearest(x, halvings))
  {
    var rnd := x => RoundToNearest(x, halvings);
    OneIsDoubledEnough();
    EnoughHalvings(1.0, ENOUGH_HALVINGS, halvings);
    forall x: real, bound: real | 0.0 <= x <= bound && 1.0 <= bound ensures IsWithin(rnd(x), x, bound) {
      DoubledIsMonotone(1.0, bound, halvings);
      RoundPositiveIsClose(x, bound, halvings);
    }
  }

  /** The arithmetic of the code's doubles. */
  function Nearest(halvings: nat): Rounding {
    RoundToNearestIsARounding(halvings);
    x => RoundToNearest(x, halvings)
  }

  /** In the code's doubles the share of sampled prefixes is the configured ratio, for every ratio, to within
      `SHARE_ERROR` ids out of 2^64. */
  lemma NearestShareIsTheRatio(halvings: nat, ratio: real)
    requires halvings >= ENOUGH_HALVINGS && 0.0 <= ratio <= 1.0
    ensures -SHARE_ERROR <= |SampledPrefixes(Nearest(halvings), ratio)| as real - TWO64 as real * ratio <= SHARE_ERROR
  {
    RoundToNearestIsAccurate(halvings);
    ShareIsTheRatio(Nearest(halvings), ratio);
  }

  // ---------------------------------------------------------------------------------------------
  // An example of the error
  // ---------------------------------------------------------------------------------------------

  /** Rounding commutes with doubling, from 2^52 on. */
  lemma {:induction false} RoundDoubled(x: real, times: nat, halvings: nat)
    requires HALF_LIMIT <= x && Doubled(x, times) >= 0.0
    ensures RoundToNearest(Doubled(x, times), halvings) == Doubled(RoundToNearest(x, halvings), times)
    decreases times
  {
    if times > 0 {
      RoundDoubled(2.0 * x, times - 1, halvings);
      assert RoundToNearest(2.0 * x, halvings) == 2.0 * RoundToNearest(x, halvings);
    }
  }

  const MIDDLE: int := 0x8000_0000_0000_0000 // 2^63

  lemma RoundScaled(x: real, halvings: nat)
    requires HALF_LIMIT <= x < LIMIT
    ensures RoundToNearest(2048.0 * x, halvings) == 2048.0 * NearestEven(x) as real
  {
    assert Power2(11) == 2048;
    DoubledTimes(x, 11);
    RoundDoubled(x, 11, halvings);
    DoubledTimes(RoundToNearest(x, halvings), 11);
  }

  /** 2^63 and 2^63 + 1024 become the same double, and the divisor becomes 2^64. */
  lemma RoundedIds(halvings: nat)
    ensures RoundToNearest(MIDDLE as real, halvings) == MIDDLE as real
    ensures RoundToNearest((MIDDLE + 1024) as real, halvings) == MIDDLE as real
    ensures RoundToNearest(UINT64_MAX as real, halvings) == 2.0 * MIDDLE as real
    ensures halvings > 0 ==> RoundToNearest(0.5, halvings) == 0.5
  {
    RoundScaled(HALF_LIMIT, halvings);
    RoundScaled(HALF_LIMIT + 0.5, halvings);
    RoundScaled(LIMIT - 1.0 / 2048.0, halvings);
    if halvings > 0 {
      RoundSmallKeepsIntegers(1, halvings - 1);
    }
  }

  lemma SameAsMiddle(rnd: Rounding)
    requires rnd((MIDDLE + 1024) as real) == MIDDLE as real && rnd(UINT64_MAX as real) == 2.0 * MIDDLE as real
    requires rnd(0.5) == 0.5
    ensures CalculateThresholdFromBuffer(rnd, MIDDLE + 1024) == CalculateThreshold(rnd, 0.5)
  {
    assert MIDDLE as real / (2.0 * MIDDLE as real) == 0.5;
  }

  lemma HalfIsNotNothing(rnd: Rounding)
    requires IsAccurate(rnd)
    ensures CalculateThreshold(rnd, 0.5) > 0
  {
    ThresholdIsClose(rnd, 0.5);
  }

  lemma TakesAllUpTo(rnd: Rounding, ratio: real, last: nat)
    requires last < TWO64
    ensures HitsRatio(rnd, CalculateThreshold(rnd, ratio), last) ==> |SampledPrefixes(rnd, ratio)| >= last + 1
  {
    if HitsRatio(rnd, CalculateThreshold(rnd, ratio), last) {
      forall p: nat | p <= last ensures p in SampledPrefixes(rnd, ratio) {
        BufferThresholdIsMonotone(rnd, p, last);
      }
      SizesAreMonotone(InitialSegment(last + 1), SampledPrefixes(rnd, ratio));
    }
  }

  /** So the share is not within one id of the ratio: half the ids means 1025 more than half. */
  lemma HalfTakesMore(halvings: nat)
    requires halvings >= ENOUGH_HALVINGS
    ensures |SampledPrefixes(Nearest(halvings), 0.5)| >= MIDDLE + 1025
  {
    RoundedIds(halvings);
    SameAsMiddle(Nearest(halvings));
    RoundToNearestIsAccurate(halvings);
    HalfIsNotNothing(Nearest(halvings));
    TakesAllUpTo(Nearest(halvings), 0.5, MIDDLE + 1024);
  }
}
