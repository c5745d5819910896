/** The ratio arithmetic and the decision cascade of `tracing/sampler.cc`.

    Double arithmetic is modelled over `real` with one abstract rounding function applied after every
    operation that can be inexact. Nothing is known about it except that it is monotone and keeps the
    integers up to 2^53, which round-to-nearest, round-up, round-down and no rounding at all satisfy. */
module Sampler {
  import opened TraceTypes

  const TWO32: int := 0x1_0000_0000
  const TWO64: int := 0x1_0000_0000_0000_0000
  const UINT32_MAX: int := TWO32 - 1
  const UINT64_MAX: int := TWO64 - 1
  const EXACT_INTEGER_LIMIT: int := 0x20_0000_0000_0000 // 2^53

  ghost predicate IsRounding(rnd: real -> real) {
    && (forall x: real, y: real :: x <= y ==> rnd(x) <= rnd(y))
    && (forall x: real :: 0.0 <= x <= EXACT_INTEGER_LIMIT as real && x.Floor as real == x ==> rnd(x) == x)
  }

  type Rounding = rnd: real -> real | IsRounding(rnd) ghost witness (x: real) => x

  /** Exact arithmetic is one of the roundings. */
  const EXACT: Rounding := (x: real) => x

  /** UINT32_MAX * ratio, as a double. */
  function Product(rnd: Rounding, ratio: real): real {
    rnd(UINT32_MAX as real * ratio)
  }

  /** The fraction of the product scaled by 2^32, plus the product: the low half before rounding. */
  function LowHalf(product: real): real {
    (product - product.Floor as real) * TWO32 as real + product
  }

  /** The two halves added without a bound on the width of the result. */
  function SplitSum(rnd: Rounding, ratio: real): int {
    var product := Product(rnd, ratio);
    product.Floor * TWO32 + rnd(LowHalf(product)).Floor
  }

  /** `Sampler::CalculateThreshold`; the final addition wraps at 64 bits. */
  function CalculateThreshold(rnd: Rounding, ratio: real): nat {
    if ratio <= 0.0 then 0
    else if ratio >= 1.0 then UINT64_MAX
    else SplitSum(rnd, ratio) % TWO64
  }

  /** The divisor of `CalculateThresholdFromBuffer`: UINT64_MAX converted to double. */
  lemma DivisorIsPositive(rnd: Rounding)
    ensures rnd(UINT64_MAX as real) >= EXACT_INTEGER_LIMIT as real > 0.0
  {
    assert rnd(EXACT_INTEGER_LIMIT as real) == EXACT_INTEGER_LIMIT as real;
  }

  /** The prefix as a fraction of UINT64_MAX, with both converted to double first. */
  function PrefixRatio(rnd: Rounding, prefix: nat): real {
    DivisorIsPositive(rnd);
    rnd(rnd(prefix as real) / rnd(UINT64_MAX as real))
  }

  /** `Sampler::CalculateThresholdFromBuffer` on the first 64 bits of the trace id. */
  function CalculateThresholdFromBuffer(rnd: Rounding, prefix: nat): nat {
    CalculateThreshold(rnd, PrefixRatio(rnd, prefix))
  }

  predicate HitsRatio(rnd: Rounding, threshold: nat, prefix: nat)
  {
    threshold != 0 && CalculateThresholdFromBuffer(rnd, prefix) <= threshold
  }

  // ---------------------------------------------------------------------------------------------
  // Monotonicity and absence of overflow, for every rounding
  // ---------------------------------------------------------------------------------------------

  lemma ScaleIsMonotone(c: real, x: real, y: real)
    requires 0.0 <= c && x <= y
    ensures c * x <= c * y && x * c <= y * c
  {
  }

  lemma ProductIsMonotone(rnd: Rounding, r1: real, r2: real)
    requires 0.0 <= r1 <= r2 <= 1.0
    ensures 0.0 <= Product(rnd, r1) <= Product(rnd, r2) <= UINT32_MAX as real
  {
    var c := UINT32_MAX as real;
    ScaleIsMonotone(c, 0.0, r1);
    ScaleIsMonotone(c, r1, r2);
    ScaleIsMonotone(c, r2, 1.0);
    assert rnd(0.0) == 0.0 && rnd(c) == c;
  }

  lemma LowHalfBounds(product: real)
    requires 0.0 <= product
    ensures product.Floor as real <= LowHalf(product) <= (product.Floor + TWO32 + 1) as real
    ensures product == product.Floor as real ==> LowHalf(product) == product
  {
    var fraction := product - product.Floor as real;
    ScaleIsMonotone(TWO32 as real, 0.0, fraction);
    ScaleIsMonotone(TWO32 as real, fraction, 1.0);
  }

  /** Rounding keeps the low half between the two integers that bound it. */
  lemma RoundedLowHalfBounds(rnd: Rounding, product: real)
    requires 0.0 <= product <= UINT32_MAX as real
    ensures product.Floor <= rnd(LowHalf(product)).Floor <= product.Floor + TWO32 + 1
    ensures product.Floor == UINT32_MAX ==> rnd(LowHalf(product)).Floor == UINT32_MAX
  {
    LowHalfBounds(product);
    var bottom, top := product.Floor as real, (product.Floor + TWO32 + 1) as real;
    assert rnd(bottom) == bottom && rnd(top) == top;
  }

  /** With `hi` the integer part of the product, the sum lies between hi * (2^32 + 1) and
      (hi + 1) * (2^32 + 1), so the sums of different `hi` do not overlap. */
  lemma SplitSumBounds(rnd: Rounding, ratio: real)
    requires 0.0 <= ratio <= 1.0
    ensures var hi := Product(rnd, ratio).Floor;
            && 0 <= hi <= UINT32_MAX
            && hi * (TWO32 + 1) <= SplitSum(rnd, ratio)
            && (hi < UINT32_MAX ==> SplitSum(rnd, ratio) <= (hi + 1) * (TWO32 + 1))
            && (hi == UINT32_MAX ==> SplitSum(rnd, ratio) == UINT64_MAX)
  {
    ProductIsMonotone(rnd, ratio, 1.0);
    var product := Product(rnd, ratio);
    RoundedLowHalfBounds(rnd, product);
    HalvesAdded(product.Floor, rnd(LowHalf(product)).Floor);
  }

  lemma HalvesAdded(hi: int, low: int)
    requires hi <= low <= hi + TWO32 + 1
    ensures hi * (TWO32 + 1) <= hi * TWO32 + low <= (hi + 1) * (TWO32 + 1)
    ensures hi == UINT32_MAX == low ==> hi * TWO32 + low == UINT64_MAX
  {
  }

  /** The 64-bit addition never wraps. */
  lemma ThresholdNeverOverflows(rnd: Rounding, ratio: real)
    requires 0.0 < ratio < 1.0
    ensures 0 <= SplitSum(rnd, ratio) <= UINT64_MAX
    ensures CalculateThreshold(rnd, ratio) == SplitSum(rnd, ratio)
  {
    SplitSumBounds(rnd, ratio);
    assert UINT32_MAX * (TWO32 + 1) == UINT64_MAX;
  }

  lemma LowHalfIsMonotone(p1: real, p2: real)
    requires p1 <= p2 && p1.Floor == p2.Floor
    ensures LowHalf(p1) <= LowHalf(p2)
  {
    ScaleIsMonotone(TWO32 as real, p1 - p1.Floor as real, p2 - p2.Floor as real);
  }

  lemma StepsDoNotOverlap(hi1: int, hi2: int)
    requires hi1 < hi2
    ensures (hi1 + 1) * (TWO32 + 1) <= hi2 * (TWO32 + 1)
  {
  }

  lemma SplitSumMonotone(rnd: Rounding, r1: real, r2: real)
    requires 0.0 <= r1 <= r2 <= 1.0
    ensures SplitSum(rnd, r1) <= SplitSum(rnd, r2)
  {
    ProductIsMonotone(rnd, r1, r2);
    var p1, p2 := Product(rnd, r1), Product(rnd, r2);
    if p1.Floor == p2.Floor {
      LowHalfIsMonotone(p1, p2);
    } else {
      SplitSumBounds(rnd, r1);
      SplitSumBounds(rnd, r2);
      StepsDoNotOverlap(p1.Floor, p2.Floor);
    }
  }

  lemma ThresholdIsMonotone(rnd: Rounding, r1: real, r2: real)
    requires r1 <= r2
    ensures CalculateThreshold(rnd, r1) <= CalculateThreshold(rnd, r2) <= UINT64_MAX
  {
    if 0.0 < r1 && r2 < 1.0 {
      SplitSumMonotone(rnd, r1, r2);
      ThresholdNeverOverflows(rnd, r1);
      ThresholdNeverOverflows(rnd, r2);
    }
  }

  lemma QuotientIsMonotone(a: real, b: real, d: real)
    requires a <= b && d > 0.0
    ensures a / d <= b / d
  {
    var x, y := a / d, b / d;
    assert x * d == a && y * d == b;
    if y < x {
      ScaleIsMonotone(d, y, x);
    }
  }

  lemma BufferThresholdIsMonotone(rnd: Rounding, p: nat, q: nat)
    requires p <= q
    ensures CalculateThresholdFromBuffer(rnd, p) <= CalculateThresholdFromBuffer(rnd, q)
  {
    DivisorIsPositive(rnd);
    var d := rnd(UINT64_MAX as real);
    var a, b := rnd(p as real), rnd(q as real);
    assert a <= b;
    QuotientIsMonotone(a, b, d);
    ThresholdIsMonotone(rnd, PrefixRatio(rnd, p), PrefixRatio(rnd, q));
  }

  /** Raising the ratio only adds trace ids, and every id below a sampled one is sampled: the ids sampled
      at one ratio form an initial segment that grows with the ratio. */
  lemma SampledIdsNest(rnd: Rounding, r1: real, r2: real, p: nat, q: nat)
    requires r1 <= r2 && p <= q
    ensures HitsRatio(rnd, CalculateThreshold(rnd, r1), q) ==> HitsRatio(rnd, CalculateThreshold(rnd, r2), p)
  {
    ThresholdIsMonotone(rnd, r1, r2);
    BufferThresholdIsMonotone(rnd, p, q);
  }

  /** The ends of the scale: a ratio of 1 takes every id, a ratio of 0 takes none. */
  lemma RatioExtremes(rnd: Rounding, ratio: real, prefix: nat)
    ensures ratio >= 1.0 ==> HitsRatio(rnd, CalculateThreshold(rnd, ratio), prefix)
    ensures ratio <= 0.0 ==> !HitsRatio(rnd, CalculateThreshold(rnd, ratio), prefix)
  {
    var r := PrefixRatio(rnd, prefix);
    ThresholdIsMonotone(rnd, r, if r <= 1.0 then 1.0 else r);
  }

  // ---------------------------------------------------------------------------------------------
  // Where the arithmetic rounds
  // ---------------------------------------------------------------------------------------------

  /** Two coarse roundings: one keeps whole numbers only, the other is exact below 1 and rounds up above. */
  const DOWN: Rounding := (x: real) => x.Floor as real

  function Ceiling(x: real): int {
    -((-x).Floor)
  }

  function RoundUp(x: real): real {
    if x < 1.0 then x else Ceiling(x) as real
  }

  lemma RoundUpIsMonotone(x: real, y: real)
    requires x <= y
    ensures RoundUp(x) <= RoundUp(y)
  {
    assert (-y).Floor <= (-x).Floor;
    assert x <= Ceiling(x) as real && y <= Ceiling(y) as real;
  }

  lemma RoundUpKeepsWhole(n: int)
    ensures RoundUp(n as real) == n as real
  {
    assert (-(n as real)).Floor == -n;
  }

  lemma RoundUpIsRounding()
    ensures IsRounding(RoundUp)
  {
    forall x: real, y: real | x <= y ensures RoundUp(x) <= RoundUp(y) {
      RoundUpIsMonotone(x, y);
    }
    forall x: real | 0.0 <= x <= EXACT_INTEGER_LIMIT as real && x.Floor as real == x ensures RoundUp(x) == x {
      RoundUpKeepsWhole(x.Floor);
    }
  }

  function Up(): Rounding {
    RoundUpIsRounding();
    RoundUp
  }

  /** Rounded down, the product has no fraction left, so the threshold is a multiple of 2^32 + 1; and no id below
      the last has a quotient left. */
  lemma RoundedDown(ratio: real, whole: int, prefix: nat)
    requires 0.0 < ratio < 1.0 && whole == (UINT32_MAX as real * ratio).Floor && prefix < UINT64_MAX
    ensures CalculateThreshold(DOWN, ratio) == whole * (TWO32 + 1)
    ensures CalculateThresholdFromBuffer(DOWN, prefix) == 0
  {
    ThresholdNeverOverflows(DOWN, ratio);
    assert Product(DOWN, ratio) == whole as real;
    assert LowHalf(whole as real) == whole as real;
    DownQuotient(prefix);
  }

  lemma DownQuotient(prefix: nat)
    requires prefix < UINT64_MAX
    ensures PrefixRatio(DOWN, prefix) == 0.0
  {
    QuotientTimesDivisor(prefix as real, UINT64_MAX as real);
    var quotient := prefix as real / UINT64_MAX as real;
    assert quotient < 1.0 by {
      assert UINT64_MAX as real * quotient == prefix as real;
    }
  }

  /** Rounded up above 1, a product below 1 keeps its fraction, and the low half is rounded. */
  lemma RoundedUp(ratio: real, product: real, scaled: real)
    requires 0.0 < ratio < 1.0 && product == UINT32_MAX as real * ratio && 0.0 <= product < 1.0
    requires scaled == product * (TWO32 + 1) as real >= 1.0
    ensures CalculateThreshold(Up(), ratio) == Ceiling(scaled)
  {
    ThresholdNeverOverflows(Up(), ratio);
    assert Product(Up(), ratio) == product;
    RoundedUpLowHalf(product, scaled);
  }

  lemma RoundedUpLowHalf(product: real, scaled: real)
    requires 0.0 <= product < 1.0 && scaled == product * (TWO32 + 1) as real >= 1.0
    ensures product.Floor == 0 && RoundUp(LowHalf(product)).Floor == Ceiling(scaled)
  {
    assert LowHalf(product) == scaled;
  }

  // ---------------------------------------------------------------------------------------------
  // Exact arithmetic
  // ---------------------------------------------------------------------------------------------

  /** Splitting at 2^32 loses nothing, because (2^32 - 1) * (2^32 + 1) == 2^64 - 1. */
  lemma ExactSplit(product: real, scaled: real)
    requires scaled == product * (TWO32 + 1) as real
    ensures product.Floor * TWO32 + LowHalf(product).Floor == scaled.Floor
  {
    assert LowHalf(product) == scaled - (product.Floor * TWO32) as real;
  }

  lemma WidthsMultiply(ratio: real)
    ensures UINT64_MAX as real * ratio == (UINT32_MAX as real * ratio) * (TWO32 + 1) as real
  {
    assert UINT64_MAX as real == UINT32_MAX as real * (TWO32 + 1) as real;
  }

  lemma ExactSplitSum(ratio: real, scaled: real)
    requires scaled == UINT64_MAX as real * ratio
    ensures SplitSum(EXACT, ratio) == scaled.Floor
  {
    var product := UINT32_MAX as real * ratio;
    WidthsMultiply(ratio);
    ExactSplit(product, scaled);
    assert Product(EXACT, ratio) == product;
  }

  lemma ExactThreshold(ratio: real, scaled: real)
    requires 0.0 <= ratio <= 1.0 && scaled == UINT64_MAX as real * ratio
    ensures CalculateThreshold(EXACT, ratio) == scaled.Floor
  {
    if ratio == 0.0 {
      assert scaled == 0.0;
    } else if ratio == 1.0 {
      assert scaled == UINT64_MAX as real;
    } else {
      ExactSplitSum(ratio, scaled);
      ThresholdNeverOverflows(EXACT, ratio);
    }
  }

  lemma QuotientTimesDivisor(a: real, m: real)
    requires m > 0.0 && 0.0 <= a <= m
    ensures m * (a / m) == a
    ensures 0.0 <= a / m <= 1.0
  {
  }

  /** The id is put on the same scale by the identity. */
  lemma ExactBufferThreshold(prefix: nat)
    requires prefix <= UINT64_MAX
    ensures CalculateThresholdFromBuffer(EXACT, prefix) == prefix
  {
    QuotientTimesDivisor(prefix as real, UINT64_MAX as real);
    ExactThreshold(PrefixRatio(EXACT, prefix), prefix as real);
  }

  /** The 64-bit prefixes a ratio samples. */
  ghost function SampledPrefixes(rnd: Rounding, ratio: real): set<int>
  {
    set p: int | 0 <= p < TWO64 && HitsRatio(rnd, CalculateThreshold(rnd, ratio), p)
  }

  ghost function InitialSegment(n: nat): (s: set<int>)
    ensures |s| == n
    ensures forall p :: p in s <==> 0 <= p < n
  {
    if n == 0 then {} else InitialSegment(n - 1) + {n - 1}
  }

  /** In exact arithmetic the share of sampled prefixes is the configured ratio to within one id out of 2^64;
      below one part in 2^64 - 1 nothing is sampled. `SampledShare` has the share for the code's doubles. */
  lemma SampledShareIsTheRatio(ratio: real)
    requires 0.0 <= ratio <= 1.0
    ensures UINT64_MAX as real * ratio >= 1.0 ==>
              -1.0 < |SampledPrefixes(EXACT, ratio)| as real - TWO64 as real * ratio < 1.0
    ensures UINT64_MAX as real * ratio < 1.0 ==> SampledPrefixes(EXACT, ratio) == {}
  {
    var scaled := UINT64_MAX as real * ratio;
    var t := CalculateThreshold(EXACT, ratio);
    ExactThreshold(ratio, scaled);
    SampledPrefixesAreTheInitialSegment(ratio, t);
    assert TWO64 as real * ratio == scaled + ratio;
    if t == 0 {
      assert scaled < 1.0;
    } else {
      assert ratio > 0.0;
    }
  }

  lemma SampledPrefixesAreTheInitialSegment(ratio: real, t: nat)
    requires 0.0 <= ratio <= 1.0 && t == CalculateThreshold(EXACT, ratio)
    ensures SampledPrefixes(EXACT, ratio) == if t == 0 then {} else InitialSegment(t + 1)
  {
    forall p: nat | p < TWO64 ensures CalculateThresholdFromBuffer(EXACT, p) == p {
      ExactBufferThreshold(p);
    }
    ThresholdIsMonotone(EXACT, ratio, 1.0);
  }

  // ---------------------------------------------------------------------------------------------
  // The decision
  // ---------------------------------------------------------------------------------------------

  const FORCE_SAMPLE_KEY := "trpc-force-sample"

  type Attributes = seq<(string, string)>

  datatype Options = Options(ratio: real, enableDeferredSample: bool, disableParentSampling: bool)

  /** A constructed sampler: the threshold is computed once, from the ratio. */
  datatype TrpcSampler = TrpcSampler(threshold: nat, options: Options)

  function NewSampler(rnd: Rounding, options: Options): TrpcSampler {
    TrpcSampler(CalculateThreshold(rnd, options.ratio), options)
  }

  /** The first eight bytes of the id, copied into a little-endian 64-bit integer. */
  function Prefix(id: TraceId): (prefix: nat)
    ensures prefix <= UINT64_MAX
  {
    LittleEndianBound(id[..8], 8);
    assert Pow256(8) == TWO64;
    LittleEndian(id[..8])
  }

  function LittleEndian(bytes: seq<Byte>): nat
  {
    if bytes == [] then 0 else bytes[0] + 0x100 * LittleEndian(bytes[1..])
  }

  function Pow256(n: nat): nat {
    if n == 0 then 1 else 0x100 * Pow256(n - 1)
  }

  lemma {:induction false} LittleEndianBound(bytes: seq<Byte>, n: nat)
    requires |bytes| == n
    ensures LittleEndian(bytes) < Pow256(n)
  {
    if n > 0 {
      LittleEndianBound(bytes[1..], n - 1);
    }
  }

  /** The prefix reads the first eight bytes of the id, the first of them as the lowest. */
  lemma PrefixReadsFirstBytes(id: TraceId)
    ensures var b: seq<int> := id;
            Prefix(id) == b[0] + 0x100 * b[1] + 0x1_0000 * b[2] + 0x100_0000 * b[3]
                          + 0x1_0000_0000 * b[4] + 0x100_0000_0000 * b[5] + 0x1_0000_0000_0000 * b[6]
                          + 0x100_0000_0000_0000 * b[7]
  {
    LastBytes(id[..8], 4);
    LastBytes(id[..8], 0);
    assert id[..8][4..] == id[4..8] && id[..8][0..] == id[..8];
  }

  lemma OneByte(bytes: seq<Byte>, k: nat)
    requires k < |bytes|
    ensures LittleEndian(bytes[k..]) == bytes[k] + 0x100 * LittleEndian(bytes[k + 1..])
  {
    assert bytes[k..][1..] == bytes[k + 1..];
  }

  /** Four bytes, from position `k` on, and what they leave. */
  lemma LastBytes(bytes: seq<Byte>, k: nat)
    requires k + 4 <= |bytes|
    ensures var b: seq<int> := bytes;
            LittleEndian(bytes[k..]) == b[k] + 0x100 * b[k + 1] + 0x1_0000 * b[k + 2] + 0x100_0000 * b[k + 3]
                                        + 0x1_0000_0000 * LittleEndian(bytes[k + 4..])
  {
    OneByte(bytes, k);
    OneByte(bytes, k + 1);
    OneByte(bytes, k + 2);
    OneByte(bytes, k + 3);
  }

  /** The digits of a number in base 256, the lowest first. */
  function Digits(n: nat, count: nat): (bytes: seq<Byte>)
    ensures |bytes| == count
  {
    if count == 0 then [] else [n % 0x100] + Digits(n / 0x100, count - 1)
  }

  lemma {:induction false} DigitsAreRead(n: nat, count: nat)
    requires n < Pow256(count)
    ensures LittleEndian(Digits(n, count)) == n
    decreases count
  {
    if count > 0 {
      DigitsAreRead(n / 0x100, count - 1);
      assert Digits(n, count)[1..] == Digits(n / 0x100, count - 1);
    }
  }

  lemma {:induction false} DigitsOfRead(bytes: seq<Byte>)
    ensures Digits(LittleEndian(bytes), |bytes|) == bytes
  {
    if bytes != [] {
      DigitsOfRead(bytes[1..]);
      assert LittleEndian(bytes) % 0x100 == bytes[0] && LittleEndian(bytes) / 0x100 == LittleEndian(bytes[1..]);
      assert bytes == [bytes[0]] + bytes[1..];
    }
  }

  /** Every number below 2^64 is the prefix of exactly the ids whose first eight bytes are its digits, one for
      each choice of the last eight: what holds of the share of prefixes holds of the share of ids. */
  lemma PrefixOfExactly(id: TraceId, prefix: nat)
    requires prefix < TWO64
    ensures Prefix(id) == prefix <==> id[..8] == Digits(prefix, 8)
  {
    assert Pow256(8) == TWO64;
    DigitsAreRead(prefix, 8);
    DigitsOfRead(id[..8]);
  }

  /** The ratio alone takes this trace. */
  predicate Hits(rnd: Rounding, sampler: TrpcSampler, traceId: TraceId) {
    HitsRatio(rnd, sampler.threshold, Prefix(traceId))
  }

  /** What the ratio decides, as a test on trace ids. */
  type RatioTest = TraceId -> bool

  function RatioTestOf(rnd: Rounding, sampler: TrpcSampler): RatioTest {
    (traceId: TraceId) => Hits(rnd, sampler, traceId)
  }

  /** A configured ratio takes an id exactly if the id's first eight bytes, on the scale of the thresholds, do
      not exceed the ratio's own threshold, and that is not zero. */
  lemma RatioTakesIdIff(rnd: Rounding, options: Options, id: TraceId)
    ensures RatioTestOf(rnd, NewSampler(rnd, options))(id)
       <==> CalculateThreshold(rnd, options.ratio) > 0
            && CalculateThresholdFromBuffer(rnd, Prefix(id)) <= CalculateThreshold(rnd, options.ratio)
    ensures NewSampler(rnd, options).options == options
  {
  }

  /** Raising the ratio only adds trace ids, and an id whose first half reads no higher than that of a taken id
      is taken as well. */
  lemma TakenIdsNest(rnd: Rounding, options: Options, options': Options, id: TraceId, id': TraceId)
    requires options.ratio <= options'.ratio && Prefix(id) <= Prefix(id')
    ensures RatioTestOf(rnd, NewSampler(rnd, options))(id') ==> RatioTestOf(rnd, NewSampler(rnd, options'))(id)
  {
    SampledIdsNest(rnd, options.ratio, options'.ratio, Prefix(id), Prefix(id'));
  }

  predicate Inherits(options: Options, parentSampled: bool) {
    !options.disableParentSampling && parentSampled
  }

  /** The three reasons to sample a span when it starts. */
  predicate HeadSampled(hits: RatioTest, options: Options, parentSampled: bool, traceId: TraceId, forced: bool) {
    forced || Inherits(options, parentSampled) || hits(traceId)
  }

  function Decide(hits: RatioTest, options: Options, parentSampled: bool, traceId: TraceId, forced: bool): Decision {
    if HeadSampled(hits, options, parentSampled, traceId, forced) then RecordAndSample
    else if options.enableDeferredSample then RecordOnly
    else Drop
  }

  /** `Sampler::IsForcedSample`: the iteration stops at the first match. */
  method IsForcedSample(attributes: Attributes) returns (dyeingFlag: bool)
    ensures dyeingFlag <==> exists i :: 0 <= i < |attributes| && attributes[i].0 == FORCE_SAMPLE_KEY
  {
    dyeingFlag := false;
    var i := 0;
    while i < |attributes| && !dyeingFlag
      invariant 0 <= i <= |attributes|
      invariant dyeingFlag ==> 0 < i && attributes[i - 1].0 == FORCE_SAMPLE_KEY
      invariant !dyeingFlag ==> forall j :: 0 <= j < i ==> attributes[j].0 != FORCE_SAMPLE_KEY
    {
      if attributes[i].0 == FORCE_SAMPLE_KEY {
        dyeingFlag := true;
      }
      i := i + 1;
    }
  }

  predicate Forced(attributes: Attributes) {
    exists i :: 0 <= i < |attributes| && attributes[i].0 == FORCE_SAMPLE_KEY
  }

  /** `Sampler::ShouldSample`. */
  method ShouldSample(rnd: Rounding, sampler: TrpcSampler, parent: SpanContext, traceId: TraceId,
                      attributes: Attributes)
    returns (decision: Decision)
    ensures decision == Decide(RatioTestOf(rnd, sampler), sampler.options, parent.sampled, traceId, Forced(attributes))
    ensures decision == RecordAndSample
       <==> || (exists i :: 0 <= i < |attributes| && attributes[i].0 == "trpc-force-sample")
            || (parent.sampled && !sampler.options.disableParentSampling)
            || (sampler.threshold > 0 && CalculateThresholdFromBuffer(rnd, Prefix(traceId)) <= sampler.threshold)
    ensures decision == RecordOnly ==> sampler.options.enableDeferredSample
    ensures decision == Drop ==> !sampler.options.enableDeferredSample
  {
    var forced := IsForcedSample(attributes);
    if forced {
      return RecordAndSample;
    }
    if !sampler.options.disableParentSampling && parent.sampled {
      return RecordAndSample;
    }
    if sampler.threshold != 0 && CalculateThresholdFromBuffer(rnd, Prefix(traceId)) <= sampler.threshold {
      return RecordAndSample;
    }
    if sampler.options.enableDeferredSample {
      return RecordOnly;
    }
    return Drop;
  }

  // ---------------------------------------------------------------------------------------------
  // Starting a span (the SDK's tracer)
  // ---------------------------------------------------------------------------------------------

  /** What the caller and the id generator contribute to a new span. */
  datatype StartInputs = StartInputs(forced: bool, freshTrace: TraceId, freshSpan: SpanId)

  /** A valid parent hands its trace id down; otherwise the span opens a new trace. */
  function TraceIdFor(parent: SpanContext, inputs: StartInputs): TraceId {
    if parent.IsValid() then parent.traceId else inputs.freshTrace
  }

  /** The sampler asks the parent for its flag without asking whether the parent is valid, and so does the
      model. The two could differ only for an invalid context with the flag set, and none is extracted from
      a bad header: what the propagator gives then has no flag. */
  function StartDecision(hits: RatioTest, options: Options, parent: SpanContext, inputs: StartInputs): Decision {
    Decide(hits, options, parent.sampled, TraceIdFor(parent, inputs), inputs.forced)
  }

  function StartContext(hits: RatioTest, options: Options, parent: SpanContext, inputs: StartInputs): SpanContext {
    SpanContext(TraceIdFor(parent, inputs), inputs.freshSpan,
                StartDecision(hits, options, parent, inputs) == RecordAndSample, false)
  }
}
