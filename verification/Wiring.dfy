/** The same traffic under the wiring of the code and under the wiring the documentation describes: which
    spans does `opentelemetry_tracing.cc` export that a reader of the documentation would not expect? */
module Wiring {
  import opened TraceTypes
  import opened Sampler
  import opened DeferredSampling
  import opened TracingFilters
  import opened TracingInvariants

  /** The wiring the documentation describes: the error option is `deferred_sample_error`. */
  function Documented(config: Config): Config {
    config.(enableSampleError := DeferredSampleError(config))
  }

  /** The entries of `list` that name spans the processor would hand on under `config`. */
  function KeepExported(config: Config, spans: seq<Span>, list: seq<nat>): seq<nat> {
    if list == [] then []
    else
      var n := |list| - 1;
      KeepExported(config, spans, list[..n]) +
      (if list[n] < |spans| && Exports(config, spans[list[n]]) then [list[n]] else [])
  }

  /** The two runs differ in what is exported and discarded only; every exported span has ended, and what
      is exported under the documented wiring is, in order, what it asks for of the rest. */
  ghost predicate Related(config: Config, w: World, w': World) {
    && w'.spans == w.spans && w'.server == w.server && w'.client == w.client && w'.logs == w.logs
    && (forall k :: 0 <= k < |w.exported| ==> w.exported[k] < |w.spans| && !w.spans[w.exported[k]].recording)
    && w'.exported == KeepExported(Documented(config), w.spans, w.exported)
  }

  /** What is kept depends on the spans named only. */
  lemma {:induction false} KeepDependsOnNamed(config: Config, a: seq<Span>, b: seq<Span>, list: seq<nat>)
    requires forall k :: 0 <= k < |list| ==> list[k] < |a| && list[k] < |b| && a[list[k]] == b[list[k]]
    ensures KeepExported(config, a, list) == KeepExported(config, b, list)
    decreases |list|
  {
    if list != [] {
      var n := |list| - 1;
      assert a[list[n]] == b[list[n]];
      KeepDependsOnNamed(config, a, b, list[..n]);
    }
  }

  /** Whatever the documented wiring exports, the code's does. */
  lemma DocumentedExportsLess(config: Config, s: Span)
    ensures Exports(Documented(config), s) ==> Exports(Wired(config), s)
  {
  }

  /** Adding a span, or rewriting one that is recording, touches nothing exported. */
  lemma SpansRelated(config: Config, w: World, w': World, spans: seq<Span>)
    requires Related(config, w, w') && |w.spans| <= |spans|
    requires forall i :: 0 <= i < |w.spans| && !w.spans[i].recording ==> spans[i] == w.spans[i]
    ensures Related(config, w.(spans := spans), w'.(spans := spans))
  {
    KeepDependsOnNamed(Documented(config), w.spans, spans, w.exported);
  }

  lemma KeepOneMore(config: Config, spans: seq<Span>, list: seq<nat>, i: nat)
    requires i < |spans|
    ensures KeepExported(config, spans, list + [i]) ==
            KeepExported(config, spans, list) + if Exports(config, spans[i]) then [i] else []
  {
    assert (list + [i])[..|list|] == list;
  }

  /** The list an ended span is put into. */
  function Listed(config: Config, w: World, i: nat): World
    requires i < |w.spans|
  {
    if Exports(config, w.spans[i]) then w.(exported := w.exported + [i]) else w.(discarded := w.discarded + [i])
  }

  lemma ListRelated(config: Config, w: World, w': World, i: nat)
    requires Related(config, w, w') && i < |w.spans| && !w.spans[i].recording
    ensures Related(config, Listed(Wired(config), w, i), Listed(Documented(config), w', i))
  {
    KeepOneMore(Documented(config), w.spans, w.exported, i);
    DocumentedExportsLess(config, w.spans[i]);
  }

  lemma EndRelated(config: Config, w: World, w': World, i: nat, duration: Int64)
    requires Related(config, w, w') && i < |w.spans|
    ensures Related(config, EndSpan(Wired(config), w, i, duration), EndSpan(Documented(config), w', i, duration))
  {
    var s := w.spans[i];
    if s.recording {
      var ended := s.(calls := s.calls + [SetDuration(duration)], recording := false);
      var spans := w.spans[i := ended];
      SpansRelated(config, w, w', spans) by {
        assert s.recording;
      }
      ListRelated(config, w.(spans := spans), w'.(spans := spans), i);
    }
  }

  lemma FinishRelated(config: Config, w: World, w': World, i: nat, outcome: Outcome)
    requires Related(config, w, w') && i < |w.spans|
    ensures Related(config, FinishSpan(Wired(config), w, i, outcome), FinishSpan(Documented(config), w', i, outcome))
  {
    if w.spans[i].recording {
      var marked := MarkFinished(Wired(config), w.spans[i], outcome);
      assert marked == MarkFinished(Documented(config), w'.spans[i], outcome);
      SpansRelated(config, w, w', w.spans[i := marked]);
      EndRelated(config, SetSpan(w, i, marked), SetSpan(w', i, marked), i, outcome.duration);
    }
  }

  lemma ClientPostRelated(config: Config, w: World, w': World, call: nat, outcome: Outcome)
    requires Related(config, w, w')
    ensures Related(config, TraceClientPost(Wired(config), w, call, outcome),
                    TraceClientPost(Documented(config), w', call, outcome))
  {
    var data := ClientDataOf(w, call);
    var v, v' := w.(client := w.client[call := data]), w'.(client := w'.client[call := data]);
    assert Related(config, v, v');
    if data.span.Some? && data.span.value < |w.spans| {
      FinishRelated(config, v, v', data.span.value, outcome);
    }
  }

  lemma ClientPreRelated(hits: RatioTest, config: Config, w: World, w': World, call: nat, start: Start)
    requires Related(config, w, w')
    ensures Related(config, TraceClientPre(hits, Wired(config), w, call, start),
                    TraceClientPre(hits, Documented(config), w', call, start))
  {
    var s := NewSpan(hits, Wired(config), ClientKind, ParentContext(w, ClientDataOf(w, call)), start);
    SpansRelated(config, w, w', w.spans + [s]);
  }

  lemma ServerStepRelated(hits: RatioTest, config: Config, w: World, w': World, e: Event)
    requires Related(config, w, w') && (e.ServerPre? || e.ServerPost? || e.Log?)
    ensures Related(config, Step(hits, Wired(config), w, e), Step(hits, Documented(config), w', e))
  {
    match e
    case ServerPre(_, upstream, start) =>
      SpansRelated(config, w, w', w.spans + [NewSpan(hits, Wired(config), ServerKind, upstream, start)]);
    case ServerPost(call, outcome) =>
      if call in w.server && w.server[call] < |w.spans| {
        FinishRelated(config, w, w', w.server[call], outcome);
      }
    case Log(_, _) =>
  }

  lemma UserCallRelated(hits: RatioTest, config: Config, w: World, w': World, i: nat, c: Call)
    requires Related(config, w, w')
    ensures Related(config, Step(hits, Wired(config), w, UserCall(i, c)), Step(hits, Documented(config), w', UserCall(i, c)))
  {
    if i < |w.spans| && w.spans[i].recording {
      SpansRelated(config, w, w', w.spans[i := w.spans[i].(calls := w.spans[i].calls + [c])]);
    }
  }

  lemma StepRelated(hits: RatioTest, config: Config, w: World, w': World, e: Event)
    requires Related(config, w, w')
    ensures Related(config, Step(hits, Wired(config), w, e), Step(hits, Documented(config), w', e))
  {
    match e
    case LinkClient(_, _) =>
    case ClientPre(call, callee, start) =>
      ClientPreRelated(hits, config, w, w', call, start);
    case ClientPost(call, callee, outcome) =>
      ClientPostRelated(config, w, w', call, outcome);
    case UserCall(i, c) =>
      UserCallRelated(hits, config, w, w', i, c);
    case EndElsewhere(i, duration) =>
      if i < |w.spans| {
        EndRelated(config, w, w', i, duration);
      }
    case _ => ServerStepRelated(hits, config, w, w', e);
  }

  lemma {:induction false} RunsRelated(hits: RatioTest, config: Config, events: seq<Event>)
    ensures Related(config, Run(hits, Wired(config), events), Run(hits, Documented(config), events))
    decreases |events|
  {
    if events != [] {
      var rest := events[..|events| - 1];
      RunsRelated(hits, config, rest);
      StepRelated(hits, config, Run(hits, Wired(config), rest), Run(hits, Documented(config), rest),
                  events[|events| - 1]);
    }
  }

  /** An ended span is exported under the code's wiring only, exactly if deferral is on without
      `deferred_sample_error`, and the span is unsampled, fast enough and not Ok; never under the
      documented wiring only. */
  ghost predicate DifferByError(hits: RatioTest, config: Config, w: World, w': World, i: nat)
    requires i < |w.spans|
  {
    var s := w.spans[i];
    && (i in w'.exported ==> i in w.exported)
    && ((i in w.exported && i !in w'.exported)
        <==> && config.enableDeferredSample && !config.deferredSampleError
             && !Sampled(hits, config, s)
             && Final(s).code != Ok && Final(s).duration <= SlowLimitNs(config))
  }

  lemma DifferenceExplained(hits: RatioTest, config: Config, w: World, w': World, i: nat)
    requires w'.spans == w.spans && i < |w.spans|
    requires ExportExplained(hits, Wired(config), w, i) && ExportExplained(hits, Documented(config), w', i)
    ensures DifferByError(hits, config, w, w', i)
  {
    var s := w.spans[i];
    assert Sampled(hits, Wired(config), s) == Sampled(hits, config, s) == Sampled(hits, Documented(config), s);
  }

  /** The same spans and logs; what is exported in the second world is, in order, a part of what is in the
      first, and what is missing is explained. */
  ghost predicate DifferByErrors(hits: RatioTest, config: Config, w: World, w': World) {
    && w'.spans == w.spans && w'.logs == w.logs
    && w'.exported == KeepExported(Documented(config), w.spans, w.exported)
    && forall i: nat :: i < |w.spans| && Ended(w.spans[i]) ==> DifferByError(hits, config, w, w', i)
  }

  /** For any traffic, this is the difference between what the code does and what is documented. */
  lemma WiringDiffersIff(hits: RatioTest, config: Config, events: seq<Event>)
    ensures DifferByErrors(hits, config, Run(hits, Wired(config), events), Run(hits, Documented(config), events))
  {
    RunsRelated(hits, config, events);
    InvHolds(hits, Wired(config), events);
    InvHolds(hits, Documented(config), events);
    HeadsHold(hits, Wired(config), events);
    HeadsHold(hits, Documented(config), events);
    RelatedDiffer(hits, config, Run(hits, Wired(config), events), Run(hits, Documented(config), events));
  }

  lemma RelatedDiffer(hits: RatioTest, config: Config, w: World, w': World)
    requires Related(config, w, w')
    requires Inv(Wired(config), w) && AllHeads(hits, Wired(config), w)
    requires Inv(Documented(config), w') && AllHeads(hits, Documented(config), w')
    ensures DifferByErrors(hits, config, w, w')
  {
    forall i: nat | i < |w.spans| && Ended(w.spans[i]) ensures DifferByError(hits, config, w, w', i) {
      EndedSpanIsExplained(hits, Wired(config), w, i);
      EndedSpanIsExplained(hits, Documented(config), w', i);
      DifferenceExplained(hits, config, w, w', i);
    }
  }

  /** The documented wiring would waste no body either. */
  lemma DocumentedKeepsBodies(hits: RatioTest, config: Config, events: seq<Event>)
    ensures NoBodyWasted(Run(hits, Documented(config), events))
  {
    BodiesFollowTheErrorOption(hits, Documented(config), events);
  }

  // ---------------------------------------------------------------------------------------------
  // When they differ at all
  // ---------------------------------------------------------------------------------------------

  /** A server call that starts and is finished. */
  function OneCall(upstream: SpanContext, start: Start, outcome: Outcome): seq<Event> {
    [ServerPre(0, upstream, start), ServerPost(0, outcome)]
  }

  lemma OneCallRun(hits: RatioTest, config: Config, upstream: SpanContext, start: Start, outcome: Outcome)
    ensures var s := NewSpan(hits, config, ServerKind, upstream, start);
            Run(hits, config, OneCall(upstream, start, outcome)) ==
            FinishSpan(config, World([s], map[0 := 0], map[], [], [], []), 0, outcome)
  {
    var first := [ServerPre(0, upstream, start)];
    RunOneMore(hits, config, [], first[0]);
    RunOneMore(hits, config, first, ServerPost(0, outcome));
    assert first + [ServerPost(0, outcome)] == OneCall(upstream, start, outcome);
    assert [] + first == first;
  }

  /** A failing, fast call that nothing samples ends as an unsampled span with that error. */
  lemma OneCallEnds(hits: RatioTest, config: Config, upstream: SpanContext, start: Start, outcome: Outcome)
    requires StartDecision(hits, SamplerOptionsOf(config), upstream, InputsOf(start)) == RecordOnly
    ensures var w := Run(hits, config, OneCall(upstream, start, outcome));
            && |w.spans| == 1 && Ended(w.spans[0]) && !Sampled(hits, config, w.spans[0])
            && Final(w.spans[0]).code == StatusOf(outcome) && Final(w.spans[0]).duration == outcome.duration
  {
    var s := NewSpan(hits, config, ServerKind, upstream, start);
    OneCallRun(hits, config, upstream, start, outcome);
    FinishIsTracked(config, s, outcome);
    EndIsTracked(MarkFinished(config, s, outcome), outcome.duration);
  }

  /** Such a call is exported by the code, and would not be if it did as documented. */
  lemma WiringDiffersWitness(hits: RatioTest, config: Config, upstream: SpanContext, start: Start, outcome: Outcome)
    requires config.enableDeferredSample && !config.deferredSampleError
    requires StartDecision(hits, SamplerOptionsOf(config), upstream, InputsOf(start)) == RecordOnly
    requires !outcome.ok && outcome.duration <= SlowLimitNs(config)
    ensures 0 in Run(hits, Wired(config), OneCall(upstream, start, outcome)).exported
    ensures 0 !in Run(hits, Documented(config), OneCall(upstream, start, outcome)).exported
  {
    var events := OneCall(upstream, start, outcome);
    OneCallEnds(hits, Wired(config), upstream, start, outcome);
    WiringDiffersIff(hits, config, events);
    assert DifferByError(hits, config, Run(hits, Wired(config), events), Run(hits, Documented(config), events), 0);
  }

  lemma {:induction false} KeepsAll(config: Config, spans: seq<Span>, list: seq<nat>)
    requires forall k :: 0 <= k < |list| ==> list[k] < |spans| && Exports(config, spans[list[k]])
    ensures KeepExported(config, spans, list) == list
    decreases |list|
  {
    if list != [] {
      var rest, last := list[..|list| - 1], list[|list| - 1];
      KeepsAll(config, spans, rest);
      KeepOneMore(config, spans, rest, last);
      assert list == rest + [last];
    }
  }

  /** Where every id hits the ratio, every span is sampled and both wirings export it. */
  lemma AllHitsExportAll(hits: RatioTest, config: Config, events: seq<Event>)
    requires forall id: TraceId :: hits(id)
    ensures Run(hits, Wired(config), events).exported == Run(hits, Documented(config), events).exported
  {
    RunsRelated(hits, config, events);
    InvHolds(hits, Wired(config), events);
    HeadsHold(hits, Wired(config), events);
    AllSampledKept(hits, config, Run(hits, Wired(config), events));
  }

  lemma AllSampledKept(hits: RatioTest, config: Config, w: World)
    requires forall id: TraceId :: hits(id)
    requires Inv(Wired(config), w) && AllHeads(hits, Wired(config), w)
    requires forall k :: 0 <= k < |w.exported| ==> w.exported[k] < |w.spans|
    ensures KeepExported(Documented(config), w.spans, w.exported) == w.exported
  {
    forall k | 0 <= k < |w.exported| ensures Exports(Documented(config), w.spans[w.exported[k]]) {
      var s := w.spans[w.exported[k]];
      assert SpanInv(Wired(config), s) && HeadInv(hits, Wired(config), s);
      assert hits(s.context.traceId);
    }
    KeepsAll(Documented(config), w.spans, w.exported);
  }

  /** The two wirings export the same for all traffic. */
  ghost predicate WiringsAgree(hits: RatioTest, config: Config) {
    forall events: seq<Event> ::
      Run(hits, Wired(config), events).exported == Run(hits, Documented(config), events).exported
  }

  /** They do exactly if deferral is off, or `deferred_sample_error` is on, or the ratio takes every id. */
  lemma WiringsAgreeIff(hits: RatioTest, config: Config)
    ensures WiringsAgree(hits, config)
       <==> !config.enableDeferredSample || config.deferredSampleError || forall id: TraceId :: hits(id)
  {
    if !config.enableDeferredSample || config.deferredSampleError {
      assert Wired(config) == Documented(config);
    } else if forall id: TraceId :: hits(id) {
      forall events: seq<Event>
        ensures Run(hits, Wired(config), events).exported == Run(hits, Documented(config), events).exported
      {
        AllHitsExportAll(hits, config, events);
      }
    } else {
      var id: TraceId :| !hits(id);
      var start := Start([], id, 1, false, Unset, 0);
      var outcome := Outcome(false, false, false, SlowLimitNs(config));
      assert !INVALID_CONTEXT.IsValid();
      WiringDiffersWitness(hits, config, INVALID_CONTEXT, start, outcome);
    }
  }
}
