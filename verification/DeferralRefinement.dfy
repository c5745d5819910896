/** The same traffic with deferral off and on, compared run against run: turning deferral on exports
    everything that was exported before, in the same order, and adds only spans that ended badly or
    slowly. */
module DeferralRefinement {
  import opened TraceTypes
  import opened Sampler
  import opened DeferredSampling
  import opened TracingFilters
  import opened TracingInvariants

  // One configuration, set up by `InitOpenTelemetry` without and with `enable_deferred_sample`.

  function Off(config: Config): Config {
    Wired(config.(enableDeferredSample := false))
  }

  function On(config: Config): Config {
    Wired(config.(enableDeferredSample := true))
  }

  /** The entries of `list` that name sampled spans. */
  function KeepSampled(spans: seq<Span>, list: seq<nat>): seq<nat> {
    if list == [] then []
    else
      var n := |list| - 1;
      KeepSampled(spans, list[..n]) +
      (if list[n] < |spans| && spans[list[n]].context.sampled then [list[n]] else [])
  }

  /** A sampled span is the same in both runs; an unsampled one exists only as a context in the first. */
  ghost predicate Corresponds(s0: Span, s1: Span) {
    && s0.context == s1.context
    && (s1.context.sampled ==> s0 == s1)
    && (!s1.context.sampled ==> s0.decision.Drop? && !s0.recording)
  }

  ghost predicate Related(w0: World, w1: World) {
    && |w0.spans| == |w1.spans|
    && (forall i :: 0 <= i < |w0.spans| ==> Corresponds(w0.spans[i], w1.spans[i]))
    && w0.server == w1.server && w0.client == w1.client && w0.logs == w1.logs
    && w0.exported == KeepSampled(w1.spans, w1.exported)
    && (forall k :: 0 <= k < |w1.exported| ==> w1.exported[k] < |w1.spans|)
  }

  /** Which entries are kept depends on the contexts only. */
  lemma {:induction false} KeepDependsOnContexts(a: seq<Span>, b: seq<Span>, list: seq<nat>)
    requires |a| <= |b| && forall k :: 0 <= k < |list| ==> list[k] < |a|
    requires forall i :: 0 <= i < |a| ==> a[i].context == b[i].context
    ensures KeepSampled(a, list) == KeepSampled(b, list)
    decreases |list|
  {
    if list != [] {
      var n := |list| - 1;
      assert list[n] < |a|;
      KeepDependsOnContexts(a, b, list[..n]);
    }
  }

  lemma KeepOneMore(spans: seq<Span>, list: seq<nat>, i: nat)
    requires i < |spans|
    ensures KeepSampled(spans, list + [i]) ==
            KeepSampled(spans, list) + if spans[i].context.sampled then [i] else []
  {
    assert (list + [i])[..|list|] == list;
  }

  lemma SameDecisionForSampled(hits: RatioTest, config: Config, parentSampled: bool, traceId: TraceId, forced: bool)
    ensures var d0 := Decide(hits, SamplerOptionsOf(Off(config)), parentSampled, traceId, forced);
            var d1 := Decide(hits, SamplerOptionsOf(On(config)), parentSampled, traceId, forced);
            d0 == (if d1 == RecordAndSample then RecordAndSample else Drop)
  {
  }

  lemma NewSpansCorrespond(hits: RatioTest, config: Config, kind: SpanKind, parent: SpanContext, start: Start)
    ensures Corresponds(NewSpan(hits, Off(config), kind, parent, start), NewSpan(hits, On(config), kind, parent, start))
  {
    SameDecisionForSampled(hits, config, parent.sampled, TraceIdFor(parent, InputsOf(start)), Forced(start.attributes));
  }

  lemma AddRelated(w0: World, w1: World, w0': World, w1': World, s0: Span, s1: Span)
    requires Related(w0, w1) && Corresponds(s0, s1)
    requires w0'.spans == w0.spans + [s0] && w1'.spans == w1.spans + [s1]
    requires w0'.exported == w0.exported && w1'.exported == w1.exported
    requires w0'.server == w1'.server && w0'.client == w1'.client && w0'.logs == w1'.logs
    ensures Related(w0', w1')
  {
    KeepDependsOnContexts(w1.spans, w1'.spans, w1.exported);
  }

  /** Rewriting a span in the second run alone is invisible if the span is unsampled. */
  lemma RewriteRelated(w0: World, w1: World, i: nat, s0: Span, s1: Span)
    requires Related(w0, w1) && i < |w1.spans| && Corresponds(s0, s1) && s1.context == w1.spans[i].context
    ensures Related(SetSpan(w0, i, s0), SetSpan(w1, i, s1))
  {
    KeepDependsOnContexts(w1.spans, SetSpan(w1, i, s1).spans, w1.exported);
  }

  function Stopped(s: Span, duration: Int64): Span {
    s.(calls := s.calls + [SetDuration(duration)], recording := false)
  }

  /** A sampled span ends in both runs, and both export it. */
  lemma EndSampledRelated(config: Config, w0: World, w1: World, i: nat, duration: Int64)
    requires Related(w0, w1) && i < |w1.spans| && w1.spans[i].recording
    requires w1.spans[i].context.sampled && Final(w1.spans[i]).sampled
    ensures Related(EndSpan(Off(config), w0, i, duration), EndSpan(On(config), w1, i, duration))
  {
    var s := w1.spans[i];
    assert Corresponds(w0.spans[i], s);
    var ended := Stopped(s, duration);
    EndIsTracked(s, duration);
    assert Final(ended).sampled;
    RewriteRelated(w0, w1, i, ended, ended);
    KeepOneMore(SetSpan(w1, i, ended).spans, w1.exported, i);
  }

  /** An unsampled span ends in the second run only. */
  lemma EndUnsampledRelated(config: Config, w0: World, w1: World, i: nat, duration: Int64)
    requires Related(w0, w1) && i < |w1.spans| && w1.spans[i].recording && !w1.spans[i].context.sampled
    ensures Related(w0, EndSpan(On(config), w1, i, duration))
    ensures EndSpan(Off(config), w0, i, duration) == w0
  {
    assert Corresponds(w0.spans[i], w1.spans[i]);
    var ended := Stopped(w1.spans[i], duration);
    RewriteRelated(w0, w1, i, w0.spans[i], ended);
    assert SetSpan(w0, i, w0.spans[i]) == w0;
    KeepOneMore(SetSpan(w1, i, ended).spans, w1.exported, i);
  }

  lemma EndRelated(config: Config, w0: World, w1: World, i: nat, duration: Int64)
    requires Related(w0, w1) && i < |w1.spans|
    requires w1.spans[i].recording ==> Final(w1.spans[i]).sampled == w1.spans[i].context.sampled
    ensures Related(EndSpan(Off(config), w0, i, duration), EndSpan(On(config), w1, i, duration))
  {
    assert Corresponds(w0.spans[i], w1.spans[i]);
    if w1.spans[i].recording {
      if w1.spans[i].context.sampled {
        EndSampledRelated(config, w0, w1, i, duration);
      } else {
        EndUnsampledRelated(config, w0, w1, i, duration);
      }
    }
  }

  lemma FinishSampledRelated(config: Config, w0: World, w1: World, i: nat, outcome: Outcome)
    requires Related(w0, w1) && i < |w1.spans| && TailInv(On(config), w1.spans[i])
    requires w1.spans[i].recording && w1.spans[i].context.sampled
    ensures Related(FinishSpan(Off(config), w0, i, outcome), FinishSpan(On(config), w1, i, outcome))
  {
    var s := w1.spans[i];
    assert Corresponds(w0.spans[i], s);
    var marked := MarkFinished(On(config), s, outcome);
    FinishIsTracked(On(config), s, outcome);
    assert BodyActs(On(config), s, outcome) == BodyActs(Off(config), s, outcome);
    RewriteRelated(w0, w1, i, marked, marked);
    EndSampledRelated(config, SetSpan(w0, i, marked), SetSpan(w1, i, marked), i, outcome.duration);
  }

  lemma FinishUnsampledRelated(config: Config, w0: World, w1: World, i: nat, outcome: Outcome)
    requires Related(w0, w1) && i < |w1.spans| && w1.spans[i].recording && !w1.spans[i].context.sampled
    ensures Related(FinishSpan(Off(config), w0, i, outcome), FinishSpan(On(config), w1, i, outcome))
  {
    var s0 := w0.spans[i];
    assert Corresponds(s0, w1.spans[i]);
    var marked := MarkFinished(On(config), w1.spans[i], outcome);
    RewriteRelated(w0, w1, i, s0, marked);
    assert SetSpan(w0, i, s0) == w0;
    EndUnsampledRelated(config, w0, SetSpan(w1, i, marked), i, outcome.duration);
  }

  lemma FinishRelated(config: Config, w0: World, w1: World, i: nat, outcome: Outcome)
    requires Related(w0, w1) && i < |w1.spans| && TailInv(On(config), w1.spans[i])
    ensures Related(FinishSpan(Off(config), w0, i, outcome), FinishSpan(On(config), w1, i, outcome))
  {
    assert Corresponds(w0.spans[i], w1.spans[i]);
    if w1.spans[i].recording {
      if w1.spans[i].context.sampled {
        FinishSampledRelated(config, w0, w1, i, outcome);
      } else {
        FinishUnsampledRelated(config, w0, w1, i, outcome);
      }
    }
  }

  lemma ServerPreRelated(hits: RatioTest, config: Config, w0: World, w1: World, call: nat, upstream: SpanContext,
                         start: Start)
    requires Related(w0, w1)
    ensures var e := ServerPre(call, upstream, start);
            Related(Step(hits, Off(config), w0, e), Step(hits, On(config), w1, e))
  {
    var e := ServerPre(call, upstream, start);
    NewSpansCorrespond(hits, config, ServerKind, upstream, start);
    AddRelated(w0, w1, Step(hits, Off(config), w0, e), Step(hits, On(config), w1, e),
               NewSpan(hits, Off(config), ServerKind, upstream, start),
               NewSpan(hits, On(config), ServerKind, upstream, start));
  }

  lemma ServerPostRelated(hits: RatioTest, config: Config, w0: World, w1: World, call: nat, outcome: Outcome)
    requires Related(w0, w1) && Inv(On(config), w1)
    ensures var e := ServerPost(call, outcome);
            Related(Step(hits, Off(config), w0, e), Step(hits, On(config), w1, e))
  {
    if call in w1.server && w1.server[call] < |w1.spans| {
      FinishRelated(config, w0, w1, w1.server[call], outcome);
    }
  }

  lemma LogRelated(hits: RatioTest, config: Config, w0: World, w1: World, call: nat, level: int)
    requires Related(w0, w1)
    ensures Related(Step(hits, Off(config), w0, Log(call, level)), Step(hits, On(config), w1, Log(call, level)))
  {
    if call in w1.server && w1.server[call] < |w1.spans| {
      assert Corresponds(w0.spans[w1.server[call]], w1.spans[w1.server[call]]);
    }
  }

  lemma ClientPreRelated(hits: RatioTest, config: Config, w0: World, w1: World, call: nat, start: Start)
    requires Related(w0, w1)
    ensures Related(TraceClientPre(hits, Off(config), w0, call, start), TraceClientPre(hits, On(config), w1, call, start))
  {
    var data := ClientDataOf(w1, call);
    var parent := ParentContext(w1, data);
    assert ParentContext(w0, data) == parent by {
      if data.parent.Some? && data.parent.value < |w1.spans| {
        assert Corresponds(w0.spans[data.parent.value], w1.spans[data.parent.value]);
      }
    }
    NewSpansCorrespond(hits, config, ClientKind, parent, start);
    AddRelated(w0, w1, TraceClientPre(hits, Off(config), w0, call, start), TraceClientPre(hits, On(config), w1, call, start),
               NewSpan(hits, Off(config), ClientKind, parent, start),
               NewSpan(hits, On(config), ClientKind, parent, start));
  }

  lemma ClientPostRelated(config: Config, w0: World, w1: World, call: nat, outcome: Outcome)
    requires Related(w0, w1) && Inv(On(config), w1)
    ensures Related(TraceClientPost(Off(config), w0, call, outcome), TraceClientPost(On(config), w1, call, outcome))
  {
    var data := ClientDataOf(w1, call);
    var w0', w1' := w0.(client := w0.client[call := data]), w1.(client := w1.client[call := data]);
    assert ClientDataOf(w0, call) == data;
    assert Related(w0', w1');
    if data.span.Some? && data.span.value < |w1.spans| {
      FinishRelated(config, w0', w1', data.span.value, outcome);
    }
  }

  lemma UserCallRelated(hits: RatioTest, config: Config, w0: World, w1: World, i: nat, c: Call)
    requires Related(w0, w1)
    ensures Related(Step(hits, Off(config), w0, UserCall(i, c)), Step(hits, On(config), w1, UserCall(i, c)))
  {
    if i < |w1.spans| && w1.spans[i].recording && OnUserInterface(c) {
      var s0, s1 := w0.spans[i], w1.spans[i];
      assert Corresponds(s0, s1);
      var s1' := s1.(calls := s1.calls + [c]);
      RewriteRelated(w0, w1, i, if s1.context.sampled then s1' else s0, s1');
      assert SetSpan(w0, i, s0) == w0;
    } else if i < |w1.spans| {
      assert Corresponds(w0.spans[i], w1.spans[i]);
    }
  }

  lemma ServerStepRelated(hits: RatioTest, config: Config, w0: World, w1: World, e: Event)
    requires Related(w0, w1) && Inv(On(config), w1) && (e.ServerPre? || e.ServerPost? || e.Log?)
    ensures Related(Step(hits, Off(config), w0, e), Step(hits, On(config), w1, e))
  {
    match e
    case ServerPre(call, upstream, start) =>
      ServerPreRelated(hits, config, w0, w1, call, upstream, start);
    case ServerPost(call, outcome) =>
      ServerPostRelated(hits, config, w0, w1, call, outcome);
    case Log(call, level) =>
      LogRelated(hits, config, w0, w1, call, level);
  }

  lemma ClientStepRelated(hits: RatioTest, config: Config, w0: World, w1: World, e: Event)
    requires Related(w0, w1) && Inv(On(config), w1) && (e.LinkClient? || e.ClientPre? || e.ClientPost?)
    ensures Related(Step(hits, Off(config), w0, e), Step(hits, On(config), w1, e))
  {
    match e
    case LinkClient(_, _) =>
    case ClientPre(call, callee, start) =>
      ClientPreRelated(hits, config, w0, w1, call, start);
    case ClientPost(call, callee, outcome) =>
      ClientPostRelated(config, w0, w1, call, outcome);
  }

  lemma StepRelated(hits: RatioTest, config: Config, w0: World, w1: World, e: Event)
    requires Related(w0, w1) && Inv(On(config), w1)
    ensures Related(Step(hits, Off(config), w0, e), Step(hits, On(config), w1, e))
  {
    if e.UserCall? {
      UserCallRelated(hits, config, w0, w1, e.span, e.invoked);
    } else if e.EndElsewhere? {
      if e.span < |w1.spans| {
        EndRelated(config, w0, w1, e.span, e.duration);
      }
    } else if e.LinkClient? || e.ClientPre? || e.ClientPost? {
      ClientStepRelated(hits, config, w0, w1, e);
    } else {
      ServerStepRelated(hits, config, w0, w1, e);
    }
  }

  lemma {:induction false} RunsRelated(hits: RatioTest, config: Config, events: seq<Event>)
    ensures Related(Run(hits, Off(config), events), Run(hits, On(config), events))
    decreases |events|
  {
    if events != [] {
      var rest := events[..|events| - 1];
      RunsRelated(hits, config, rest);
      InvHolds(hits, On(config), rest);
      StepRelated(hits, config, Run(hits, Off(config), rest), Run(hits, On(config), rest), events[|events| - 1]);
    }
  }

  lemma {:induction false} KeptIffSampled(spans: seq<Span>, list: seq<nat>, i: nat)
    requires i < |spans|
    ensures i in KeepSampled(spans, list) <==> i in list && spans[i].context.sampled
    decreases |list|
  {
    if list != [] {
      KeptIffSampled(spans, list[..|list| - 1], i);
    }
  }

  /** What was exported in the first world is, in order, exactly the sampled part of what is exported in
      the second; and an ended span is exported only in the second exactly when it is unsampled and not
      Ok, or unsampled and slow. */
  ghost predicate ConservativeExtension(config: Config, w0: World, w1: World) {
    && |w0.spans| == |w1.spans| && w0.logs == w1.logs
    && w0.exported == KeepSampled(w1.spans, w1.exported)
    && forall i: nat :: i < |w1.spans| && Ended(w1.spans[i]) ==>
         ((i in w1.exported && i !in w0.exported)
          <==> && !w1.spans[i].context.sampled
               && (Final(w1.spans[i]).code != Ok || Final(w1.spans[i]).duration > SlowLimitNs(config)))
  }

  /** Turning deferral on is a conservative extension, for any traffic whatsoever. */
  lemma DeferralIsConservative(hits: RatioTest, config: Config, events: seq<Event>)
    ensures ConservativeExtension(config, Run(hits, Off(config), events), Run(hits, On(config), events))
  {
    var w0, w1 := Run(hits, Off(config), events), Run(hits, On(config), events);
    RunsRelated(hits, config, events);
    InvHolds(hits, On(config), events);
    HeadsHold(hits, On(config), events);
    forall i: nat | i < |w1.spans| && Ended(w1.spans[i])
      ensures (i in w1.exported && i !in w0.exported)
         <==> && !w1.spans[i].context.sampled
              && (Final(w1.spans[i]).code != Ok || Final(w1.spans[i]).duration > SlowLimitNs(config))
    {
      KeptIffSampled(w1.spans, w1.exported, i);
      assert TailInv(On(config), w1.spans[i]) && HeadInv(hits, On(config), w1.spans[i]);
      EndedSpanIsExplained(hits, On(config), w1, i);
    }
  }
}
