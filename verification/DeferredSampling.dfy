/** The tail-sampling processor of `tracing/deferred_sample_processor.cc`. */
module DeferredSampling {
  import opened TraceTypes

  /** The three values a `DeferredRecordable` keeps for the decision at the end of a span. */
  datatype Tracked = Tracked(sampled: bool, code: StatusCode, duration: Int64)

  function Track(t: Tracked, call: Call): Tracked {
    match call
    case SetIdentity(context, _) => t.(sampled := context.sampled)
    case SetStatus(code) => t.(code := code)
    case SetDuration(duration) => t.(duration := duration)
    case _ => t
  }

  function TrackAll(t: Tracked, calls: seq<Call>): Tracked {
    if calls == [] then t else Track(TrackAll(t, calls[..|calls| - 1]), calls[|calls| - 1])
  }

  datatype Field = SampledField | CodeField | DurationField

  predicate Writes(call: Call, field: Field) {
    match field
    case SampledField => call.SetIdentity?
    case CodeField => call.SetStatus?
    case DurationField => call.SetDuration?
  }

  /** `k` is the last call that writes the field. */
  ghost predicate LastWrite(calls: seq<Call>, k: int, field: Field) {
    && 0 <= k < |calls|
    && Writes(calls[k], field)
    && forall j :: k < j < |calls| ==> !Writes(calls[j], field)
  }

  ghost predicate NeverWritten(calls: seq<Call>, field: Field) {
    forall j :: 0 <= j < |calls| ==> !Writes(calls[j], field)
  }

  /** A tracked field is the argument of the last call that writes it, whatever came in between. */
  lemma {:induction false} LastWriteWins(t: Tracked, calls: seq<Call>, k: nat, field: Field)
    requires LastWrite(calls, k, field)
    ensures match field
            case SampledField => TrackAll(t, calls).sampled == calls[k].context.sampled
            case CodeField => TrackAll(t, calls).code == calls[k].code
            case DurationField => TrackAll(t, calls).duration == calls[k].duration
    decreases |calls|
  {
    var n := |calls| - 1;
    if k < n {
      assert !Writes(calls[n], field);
      LastWriteWins(t, calls[..n], k, field);
    }
  }

  /** A field no call writes keeps the value it was born with. */
  lemma {:induction false} UnwrittenFieldIsKept(t: Tracked, calls: seq<Call>, field: Field)
    requires NeverWritten(calls, field)
    ensures match field
            case SampledField => TrackAll(t, calls).sampled == t.sampled
            case CodeField => TrackAll(t, calls).code == t.code
            case DurationField => TrackAll(t, calls).duration == t.duration
    decreases |calls|
  {
    if calls != [] {
      var n := |calls| - 1;
      assert !Writes(calls[n], field);
      UnwrittenFieldIsKept(t, calls[..n], field);
    }
  }

  // ---------------------------------------------------------------------------------------------
  // The recordable
  // ---------------------------------------------------------------------------------------------

  /** The wrapped recordable. Its state is the sequence of calls it has received: whatever a concrete
      recordable stores is a function of that sequence. */
  class InnerRecordable {
    var calls: seq<Call>

    constructor ()
      ensures calls == []
    {
      calls := [];
    }

    method Receive(call: Call)
      modifies this
      ensures calls == old(calls) + [call]
    {
      calls := calls + [call];
    }
  }

  class DeferredRecordable {
    var inner: InnerRecordable?
    var sampled: bool
    var code: StatusCode
    var duration: Int64

    // The values the fields had on construction, the calls the inner recordable had already received,
    // and the calls since.
    ghost var born: Tracked
    ghost var before: seq<Call>
    ghost var history: seq<Call>

    ghost function Fields(): Tracked
      reads this
    {
      Tracked(sampled, code, duration)
    }

    ghost predicate Valid()
      reads this, inner
    {
      && Fields() == TrackAll(born, history)
      && (inner != null ==> inner.calls == before + history)
    }

    /** `code_` and `duration_` have no initialiser in the source: they start with arbitrary values. */
    constructor (recordable: InnerRecordable)
      ensures Valid() && inner == recordable && history == [] && before == recordable.calls
      ensures !sampled && !born.sampled
    {
      inner := recordable;
      sampled := false;
      code := *;
      duration := *;
      new;
      born := Tracked(sampled, code, duration);
      before := recordable.calls;
      history := [];
    }

    /** What every mutator does: it updates the tracked fields as `Track` says and forwards itself. */
    twostate predicate Performed(call: Call)
      reads this, inner
    {
      && inner == old(inner) && inner != null
      && inner.calls == old(inner.calls) + [call]
      && Fields() == Track(old(Fields()), call)
      && born == old(born) && before == old(before) && history == old(history) + [call]
    }

    ghost method Remember(call: Call)
      requires Fields() == Track(TrackAll(born, history), call)
      requires inner != null && inner.calls == before + history + [call]
      modifies this`history
      ensures Valid() && history == old(history) + [call]
    {
      assert (history + [call])[..|history|] == history;
      history := history + [call];
    }

    method SetIdentity(context: SpanContext, parentSpanId: SpanId)
      requires Valid() && inner != null
      modifies this, inner
      ensures Valid() && Performed(Call.SetIdentity(context, parentSpanId))
    {
      sampled := context.sampled;
      inner.Receive(Call.SetIdentity(context, parentSpanId));
      Remember(Call.SetIdentity(context, parentSpanId));
    }

    method SetStatus(statusCode: StatusCode)
      requires Valid() && inner != null
      modifies this, inner
      ensures Valid() && Performed(Call.SetStatus(statusCode))
    {
      code := statusCode;
      inner.Receive(Call.SetStatus(statusCode));
      Remember(Call.SetStatus(statusCode));
    }

    method SetDuration(d: Int64)
      requires Valid() && inner != null
      modifies this, inner
      ensures Valid() && Performed(Call.SetDuration(d))
    {
      duration := d;
      inner.Receive(Call.SetDuration(d));
      Remember(Call.SetDuration(d));
    }

    /** The eight mutators that only forward: attribute, event, link, name, kind, resource, start time and
        instrumentation scope. */
    method Forward(call: Call)
      requires Valid() && inner != null
      requires !call.SetIdentity? && !call.SetStatus? && !call.SetDuration?
      modifies this`history, inner
      ensures Valid() && Performed(call)
    {
      inner.Receive(call);
      Remember(call);
    }

    /** `GetRecordable` moves the inner recordable out; the wrapper keeps nothing. */
    method GetRecordable() returns (r: InnerRecordable?)
      modifies this`inner
      ensures r == old(inner) && inner == null
      ensures old(Valid()) ==> Valid()
    {
      r := inner;
      inner := null;
    }
  }

  // ---------------------------------------------------------------------------------------------
  // The processor
  // ---------------------------------------------------------------------------------------------

  const INT64_MODULUS: int := 0x1_0000_0000_0000_0000
  const INT64_MAX: int := 0x7fff_ffff_ffff_ffff

  /** `sampleSlowDuration` is in microseconds. */
  datatype ProcessorOptions = ProcessorOptions(enableSampleError: bool, sampleSlowDuration: Int64)

  /** The options an unconfigured processor has: error sampling off, an unreachable latency limit. */
  const DEFAULT_OPTIONS := ProcessorOptions(false, INT64_MAX)

  /** Signed 64-bit arithmetic as two's complement hardware performs it; the language leaves overflow
      undefined. */
  function Wrap64(n: int): Int64 {
    var m := n % INT64_MODULUS;
    if m <= INT64_MAX then m else m - INT64_MODULUS
  }

  /** Comparing nanoseconds with microseconds first multiplies the latter by 1000 in 64 bits. */
  predicate IsSlow(durationNs: Int64, limitUs: Int64) {
    durationNs > Wrap64(limitUs * 1000)
  }

  predicate ShouldSampleDeferred(options: ProcessorOptions, t: Tracked) {
    || t.sampled
    || (options.enableSampleError && t.code != Ok)
    || IsSlow(t.duration, options.sampleSlowDuration)
  }

  lemma WrapIsIdentityIffItFits(n: int)
    ensures Wrap64(n) == n <==> -INT64_MAX - 1 <= n <= INT64_MAX
  {
    if 0 <= n <= INT64_MAX {
      assert n % INT64_MODULUS == n;
    } else if -INT64_MAX - 1 <= n < 0 {
      assert (n + INT64_MODULUS) % INT64_MODULUS == n + INT64_MODULUS;
    }
  }

  /** A multiple of 1000 stays even, so it never wraps onto INT64_MAX. */
  lemma WrappedLimitIsEven(limitUs: int)
    ensures Wrap64(limitUs * 1000) != INT64_MAX
  {
    var n := limitUs * 1000;
    var q := n / INT64_MODULUS;
    assert n % INT64_MODULUS == n - INT64_MODULUS * q;
    assert n - INT64_MODULUS * q == 2 * (limitUs * 500 - 0x8000_0000_0000_0000 * q);
  }

  /** The comparison means what it says for every duration exactly when the limit, in nanoseconds, fits
      into 64 bits. */
  lemma SlowComparisonIsExactIffItFits(limitUs: Int64)
    ensures (forall d: Int64 :: IsSlow(d, limitUs) <==> d > limitUs * 1000)
       <==> -INT64_MAX - 1 <= limitUs * 1000 <= INT64_MAX
  {
    WrapIsIdentityIffItFits(limitUs * 1000);
    WrappedLimitIsEven(limitUs);
    var longest: Int64, shortest: Int64 := INT64_MAX, -INT64_MAX - 1;
    assert IsSlow(longest, limitUs) && !IsSlow(shortest, limitUs);
  }

  /** The default limit does not fit: under wrap-around it becomes -1000 ns, and a processor left with
      its default options would pass every span with a non-negative duration. */
  lemma DefaultLimitPassesEverything(t: Tracked)
    requires t.duration >= 0
    ensures ShouldSampleDeferred(DEFAULT_OPTIONS, t)
  {
    assert Wrap64(INT64_MAX * 1000) == -1000;
  }

  /** The processor behind: everything handed to it, in order. */
  class InnerProcessor {
    var received: seq<InnerRecordable?>

    constructor ()
      ensures received == []
    {
      received := [];
    }

    method OnEnd(recordable: InnerRecordable?)
      modifies this
      ensures received == old(received) + [recordable]
    {
      received := received + [recordable];
    }
  }

  /** What the SDK may pass to `OnEnd`: a recordable this processor made, or one of another class. */
  datatype AnyRecordable = Deferred(recordable: DeferredRecordable) | Foreign(other: InnerRecordable)

  class DeferredSampleProcessor {
    const innerProcessor: InnerProcessor
    const options: ProcessorOptions

    constructor (innerProcessor: InnerProcessor, options: ProcessorOptions)
      ensures this.innerProcessor == innerProcessor && this.options == options
    {
      this.innerProcessor := innerProcessor;
      this.options := options;
    }

    method MakeRecordable() returns (r: DeferredRecordable)
      ensures fresh(r) && r.Valid() && r.inner != null && fresh(r.inner) && r.before == r.history == []
      ensures !r.born.sampled
    {
      var inner := new InnerRecordable();
      r := new DeferredRecordable(inner);
    }

    function ShouldDeferredSampler(r: DeferredRecordable): (pass: bool)
      reads r
      ensures pass == ShouldSampleDeferred(options, Tracked(r.sampled, r.code, r.duration))
    {
      if r.sampled then true
      else if options.enableSampleError && r.code != Ok then true
      else if IsSlow(r.duration, options.sampleSlowDuration) then true
      else false
    }

    /** A recordable of ours is handed on, whole and once, exactly when the values its calls left behind
        call for it; a foreign one never is. */
    method OnEnd(span: AnyRecordable)
      requires span.Deferred? ==> span.recordable.Valid()
      modifies innerProcessor
      modifies if span.Deferred? then {span.recordable} else {}
      ensures span.Foreign? ==> innerProcessor.received == old(innerProcessor.received)
      ensures span.Deferred? ==>
                var r := span.recordable;
                && r.history == old(r.history) && r.born == old(r.born)
                && (if ShouldSampleDeferred(options, TrackAll(r.born, r.history))
                    then innerProcessor.received == old(innerProcessor.received) + [old(r.inner)] && r.inner == null
                    else innerProcessor.received == old(innerProcessor.received) && r.inner == old(r.inner))
    {
      match span
      case Foreign(_) =>
      case Deferred(r) =>
        if ShouldDeferredSampler(r) {
          var inner := r.GetRecordable();
          innerProcessor.OnEnd(inner);
        }
    }
  }
}
