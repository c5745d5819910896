/** The share of trace ids that `tracing/sampler.cc` samples when its arithmetic is as accurate as that of
    doubles: how far the roundings can move the threshold, the scale of the ids, and the share. */
module SampledShare {
  import opened Sampler

  const LIMIT: real := EXACT_INTEGER_LIMIT as real // 2^53

  /** The difference is at most one part in 2^53 of the bound. */
  predicate IsWithin(rounded: real, x: real, bound: real) {
    -bound <= LIMIT * (rounded - x) <= bound
  }

  /** What the share needs of a rounding: one part in 2^53 of any bound on the value that is at least 1. */
  ghost predicate IsAccurate(rnd: real -> real) {
    forall x: real, bound: real :: 0.0 <= x <= bound && 1.0 <= bound ==> IsWithin(rnd(x), x, bound)
  }

  // ---------------------------------------------------------------------------------------------
  // The threshold
  // ---------------------------------------------------------------------------------------------

  const SUM_ERROR: real := 2052.0

  /** A bound of 2^k, divided by 2^53. */
  lemma ErrorOf(rounded: real, x: real, bound: real, error: real)
    requires IsWithin(rounded, x, bound) && LIMIT * error == bound
    ensures -error <= rounded - x <= error
  {
  }

  lemma ScaledError(product: real, exact: real)
    requires IsWithin(product, exact, TWO32 as real)
    ensures -2049.0 <= product * (TWO32 + 1) as real - exact * (TWO32 + 1) as real <= 2049.0
  {
    ErrorOf(product, exact, TWO32 as real, 1.0 / 2097152.0);
    assert product * (TWO32 + 1) as real - exact * (TWO32 + 1) as real == (product - exact) * (TWO32 + 1) as real;
  }

  /** The low half, its rounding, and the product it comes from, put together. */
  lemma SumError(hi: int, low: real, rounded: real, product: real, exact: real)
    requires hi as real * TWO32 as real + low == product * (TWO32 + 1) as real
    requires IsWithin(product, exact, TWO32 as real) && IsWithin(rounded, low, 2.0 * TWO32 as real)
    ensures -SUM_ERROR <= (hi * TWO32 + rounded.Floor) as real - exact * (TWO32 + 1) as real <= SUM_ERROR
  {
    ScaledError(product, exact);
    ErrorOf(rounded, low, 2.0 * TWO32 as real, 1.0 / 1048576.0);
    assert (hi * TWO32 + rounded.Floor) as real == hi as real * TWO32 as real + rounded.Floor as real;
    assert -1.0 <= rounded.Floor as real - rounded <= 0.0;
  }

  lemma ProductIsWithin(rnd: Rounding, ratio: real)
    requires IsAccurate(rnd) && 0.0 <= ratio <= 1.0
    ensures IsWithin(Product(rnd, ratio), UINT32_MAX as real * ratio, TWO32 as real)
  {
    ScaleIsMonotone(UINT32_MAX as real, 0.0, ratio);
    ScaleIsMonotone(UINT32_MAX as real, ratio, 1.0);
    var exact := UINT32_MAX as real * ratio;
    assert IsWithin(rnd(exact), exact, TWO32 as real);
  }

  lemma LowHalfIsWithin(rnd: Rounding, product: real)
    requires IsAccurate(rnd) && 0.0 <= product <= UINT32_MAX as real
    ensures IsWithin(rnd(LowHalf(product)), LowHalf(product), 2.0 * TWO32 as real)
  {
    LowHalfBounds(product);
  }

  lemma HalvesOfProduct(product: real)
    ensures product.Floor as real * TWO32 as real + LowHalf(product) == product * (TWO32 + 1) as real
  {
  }

  lemma SplitSumFromHalves(rnd: Rounding, ratio: real, exact: real, scaled: real)
    requires IsWithin(Product(rnd, ratio), exact, TWO32 as real) && scaled == exact * (TWO32 + 1) as real
    requires var low := LowHalf(Product(rnd, ratio)); IsWithin(rnd(low), low, 2.0 * TWO32 as real)
    ensures -SUM_ERROR <= SplitSum(rnd, ratio) as real - scaled <= SUM_ERROR
  {
    var product := Product(rnd, ratio);
    var low := LowHalf(product);
    HalvesOfProduct(product);
    SumError(product.Floor, low, rnd(low), product, exact);
  }

  lemma SplitSumIsClose(rnd: Rounding, ratio: real)
    requires IsAccurate(rnd) && 0.0 <= ratio <= 1.0
    ensures -SUM_ERROR <= SplitSum(rnd, ratio) as real - UINT64_MAX as real * ratio <= SUM_ERROR
  {
    ProductIsMonotone(rnd, ratio, 1.0);
    ProductIsWithin(rnd, ratio);
    LowHalfIsWithin(rnd, Product(rnd, ratio));
    WidthsMultiply(ratio);
    SplitSumFromHalves(rnd, ratio, UINT32_MAX as real * ratio, UINT64_MAX as real * ratio);
  }

  lemma ThresholdIsClose(rnd: Rounding, ratio: real)
    requires IsAccurate(rnd) && 0.0 <= ratio <= 1.0
    ensures -SUM_ERROR <= CalculateThreshold(rnd, ratio) as real - UINT64_MAX as real * ratio <= SUM_ERROR
  {
    if ratio == 0.0 {
      assert UINT64_MAX as real * ratio == 0.0;
    } else if ratio == 1.0 {
      assert UINT64_MAX as real * ratio == UINT64_MAX as real;
    } else {
      SplitSumIsClose(rnd, ratio);
      ThresholdNeverOverflows(rnd, ratio);
    }
  }

  // ---------------------------------------------------------------------------------------------
  // The ids
  // ---------------------------------------------------------------------------------------------

  const ID_ERROR: real := 8196.0

  /** The id, the divisor and the quotient are each rounded. */
  lemma RatioError(id: real, roundedId: real, divisor: real, quotient: real, ratio: real)
    requires 0.0 <= quotient <= 1.0 && quotient * divisor == roundedId
    requires IsWithin(roundedId, id, TWO64 as real) && IsWithin(divisor, UINT64_MAX as real, TWO64 as real)
    requires IsWithin(ratio, quotient, 1.0)
    ensures -6144.0 <= UINT64_MAX as real * ratio - id <= 6144.0
  {
    var m, error, last := UINT64_MAX as real, divisor - UINT64_MAX as real, ratio - quotient;
    assert -2048.0 <= error <= 2048.0;
    assert -2048.0 <= roundedId - id <= 2048.0;
    assert -1.0 / LIMIT <= last <= 1.0 / LIMIT;
    FractionOf(quotient, error, 2048.0);
    ScaleIsMonotone(m, last, 1.0 / LIMIT);
    ScaleIsMonotone(m, -1.0 / LIMIT, last);
    Rearranged(m, error, quotient, last);
    assert m + error == divisor && quotient + last == ratio;
    assert -2048.0 <= m * last <= 2048.0;
    assert m * ratio - id == (roundedId - id) - quotient * error + m * last;
  }

  lemma ProductIsNotNegative(a: real, b: real)
    requires a >= 0.0 && b >= 0.0
    ensures a * b >= 0.0
  {
  }

  lemma FractionOf(quotient: real, error: real, bound: real)
    requires 0.0 <= quotient <= 1.0 && -bound <= error <= bound
    ensures -bound <= quotient * error <= bound
  {
    ProductIsNotNegative(quotient, bound - error);
    ProductIsNotNegative(quotient, bound + error);
    ProductIsNotNegative(1.0 - quotient, bound);
    assert quotient * (bound - error) == quotient * bound - quotient * error;
    assert quotient * (bound + error) == quotient * bound + quotient * error;
    assert (1.0 - quotient) * bound == bound - quotient * bound;
  }

  lemma Rearranged(m: real, error: real, quotient: real, last: real)
    ensures m * (quotient + last) == quotient * (m + error) - quotient * error + m * last
  {
  }

  lemma QuotientOfSmaller(a: real, d: real)
    requires 0.0 <= a <= d && d > 0.0
    ensures 0.0 <= a / d <= 1.0 && a / d * d == a
  {
  }

  lemma IdIsWithin(rnd: Rounding, id: nat)
    requires IsAccurate(rnd) && id <= UINT64_MAX
    ensures 0.0 <= rnd(id as real) <= rnd(UINT64_MAX as real)
    ensures IsWithin(rnd(id as real), id as real, TWO64 as real)
  {
    assert rnd(0.0) == 0.0;
  }

  lemma QuotientIsWithin(rnd: Rounding, quotient: real)
    requires IsAccurate(rnd) && 0.0 <= quotient <= 1.0
    ensures 0.0 <= rnd(quotient) <= 1.0 && IsWithin(rnd(quotient), quotient, 1.0)
  {
    assert rnd(0.0) == 0.0 && rnd(1.0) == 1.0;
  }

  /** The id and the divisor as doubles, their quotient, and the quotient as a double. */
  lemma Quotient(rnd: Rounding, prefix: nat) returns (id: real, divisor: real, quotient: real)
    requires IsAccurate(rnd) && prefix <= UINT64_MAX
    ensures 0.0 <= quotient <= 1.0 && quotient * divisor == id && PrefixRatio(rnd, prefix) == rnd(quotient)
    ensures IsWithin(id, prefix as real, TWO64 as real) && IsWithin(divisor, UINT64_MAX as real, TWO64 as real)
  {
    DivisorIsPositive(rnd);
    id, divisor := rnd(prefix as real), rnd(UINT64_MAX as real);
    IdIsWithin(rnd, prefix);
    IdIsWithin(rnd, UINT64_MAX);
    QuotientOfSmaller(id, divisor);
    quotient := id / divisor;
  }

  lemma PrefixRatioIsClose(rnd: Rounding, prefix: nat)
    requires IsAccurate(rnd) && prefix <= UINT64_MAX
    ensures 0.0 <= PrefixRatio(rnd, prefix) <= 1.0
    ensures -6144.0 <= UINT64_MAX as real * PrefixRatio(rnd, prefix) - prefix as real <= 6144.0
  {
    var id, divisor, quotient := Quotient(rnd, prefix);
    QuotientIsWithin(rnd, quotient);
    RatioError(prefix as real, id, divisor, quotient, PrefixRatio(rnd, prefix));
  }

  lemma ErrorsOfTwo(a: real, b: real, c: real, error: real, error': real)
    requires -error <= a - b <= error && -error' <= b - c <= error'
    ensures -(error + error') <= a - c <= error + error'
  {
  }

  /** The id is put on the scale of the thresholds almost where it was. */
  lemma BufferThresholdIsClose(rnd: Rounding, prefix: nat)
    requires IsAccurate(rnd) && prefix <= UINT64_MAX
    ensures -ID_ERROR <= CalculateThresholdFromBuffer(rnd, prefix) as real - prefix as real <= ID_ERROR
  {
    var ratio := PrefixRatio(rnd, prefix);
    PrefixRatioIsClose(rnd, prefix);
    ThresholdIsClose(rnd, ratio);
    ErrorsOfTwo(CalculateThreshold(rnd, ratio) as real, UINT64_MAX as real * ratio, prefix as real, SUM_ERROR, 6144.0);
  }

  // ---------------------------------------------------------------------------------------------
  // The share
  // ---------------------------------------------------------------------------------------------

  const SHARE_ERROR: real := 10250.0 // less than one part in 10^15

  lemma SizesAreMonotone(a: set<int>, b: set<int>)
    requires a <= b
    ensures |a| <= |b|
  {
    assert b == a + (b - a);
  }

  lemma WholeError(a: int, b: int)
    requires -ID_ERROR <= a as real - b as real <= ID_ERROR
    ensures b - ID_ERROR.Floor <= a <= b + ID_ERROR.Floor
  {
  }

  /** A prefix well below the threshold is sampled, and none well above it. */
  lemma SampledNear(rnd: Rounding, ratio: real, p: nat)
    requires IsAccurate(rnd) && p < TWO64 && CalculateThreshold(rnd, ratio) > 0
    ensures var t := CalculateThreshold(rnd, ratio);
            && (p + ID_ERROR.Floor <= t ==> p in SampledPrefixes(rnd, ratio))
            && (p in SampledPrefixes(rnd, ratio) ==> p <= t + ID_ERROR.Floor)
  {
    BufferThresholdIsClose(rnd, p);
    WholeError(CalculateThresholdFromBuffer(rnd, p), p);
  }

  /** So their number is near the threshold. */
  lemma ShareAtThreshold(rnd: Rounding, ratio: real, t: nat)
    requires IsAccurate(rnd) && t == CalculateThreshold(rnd, ratio)
    ensures t + 1 - ID_ERROR.Floor <= |SampledPrefixes(rnd, ratio)| <= t + 1 + ID_ERROR.Floor
  {
    var sampled := SampledPrefixes(rnd, ratio);
    var error := ID_ERROR.Floor;
    if t == 0 {
      assert sampled == {};
    } else {
      var below := InitialSegment(if t + 1 >= error then t + 1 - error else 0);
      var above := InitialSegment(t + 1 + error);
      ThresholdIsMonotone(rnd, ratio, if ratio <= 1.0 then 1.0 else ratio);
      forall p: nat | p < TWO64
        ensures (p + error <= t ==> p in sampled) && (p in sampled ==> p <= t + error)
      {
        SampledNear(rnd, ratio, p);
      }
      SizesAreMonotone(below, sampled);
      SizesAreMonotone(sampled, above);
    }
  }

  lemma ErrorsAddUp(size: int, t: int, ratio: real)
    requires 0.0 <= ratio <= 1.0 && -SUM_ERROR <= t as real - UINT64_MAX as real * ratio <= SUM_ERROR
    requires t + 1 - ID_ERROR.Floor <= size <= t + 1 + ID_ERROR.Floor
    ensures -SHARE_ERROR <= size as real - TWO64 as real * ratio <= SHARE_ERROR
  {
    assert TWO64 as real * ratio == UINT64_MAX as real * ratio + ratio;
  }

  /** For arithmetic as accurate as that of doubles, the share of sampled prefixes is the configured ratio to
      within `SHARE_ERROR` ids out of 2^64. */
  lemma ShareIsTheRatio(rnd: Rounding, ratio: real)
    requires IsAccurate(rnd) && 0.0 <= ratio <= 1.0
    ensures -SHARE_ERROR <= |SampledPrefixes(rnd, ratio)| as real - TWO64 as real * ratio <= SHARE_ERROR
  {
    var t := CalculateThreshold(rnd, ratio);
    ThresholdIsClose(rnd, ratio);
    ShareAtThreshold(rnd, ratio, t);
    ErrorsAddUp(|SampledPrefixes(rnd, ratio)|, t, ratio);
  }
}
