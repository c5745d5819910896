/** What holds after every run of the tracing machine, and the theorems read off it. */
module TracingInvariants {
  import opened TraceTypes
  import opened Sampler
  import opened DeferredSampling
  import opened TracingFilters

  // ---------------------------------------------------------------------------------------------
  // The tracked fields of the call sequences the machine builds
  // ---------------------------------------------------------------------------------------------

  lemma {:induction false} TrackAllConcat(t: Tracked, a: seq<Call>, b: seq<Call>)
    ensures TrackAll(t, a + b) == TrackAll(TrackAll(t, a), b)
    decreases |b|
  {
    if b == [] {
      assert a + b == a;
    } else {
      var n := |b| - 1;
      assert (a + b)[..|a| + n] == a + b[..n];
      TrackAllConcat(t, a, b[..n]);
    }
  }

  predicate WritesNothing(calls: seq<Call>) {
    forall i :: 0 <= i < |calls| ==> !calls[i].SetIdentity? && !calls[i].SetStatus? && !calls[i].SetDuration?
  }

  lemma {:induction false} UntrackedCalls(t: Tracked, calls: seq<Call>)
    requires WritesNothing(calls)
    ensures TrackAll(t, calls) == t
    decreases |calls|
  {
    if calls != [] {
      UntrackedCalls(t, calls[..|calls| - 1]);
    }
  }

  /** Starting a span leaves the sampled flag of its own context behind and nothing else. */
  lemma StartIsTracked(t: Tracked, kind: SpanKind, context: SpanContext, parent: SpanContext, start: Start)
    ensures TrackAll(t, StartCalls(kind, context, parent, start)) == t.(sampled := context.sampled)
  {
    var head := [SetName, SetInstrumentationScope, SetIdentity(context, parent.spanId)];
    var tail := AttributeCalls(Keys(start.attributes)) + [SetSpanKind(kind), SetStartTime, SetResource] +
                AttributeCalls(FilterAttributes(kind, start.dyeing));
    assert StartCalls(kind, context, parent, start) == head + tail;
    TrackAllConcat(t, head, tail);
    UntrackedCalls(TrackAll(t, head), tail);
    UntrackedCalls(t, head[..2]);
    assert head[..2] + [head[2]] == head;
    TrackAllConcat(t, head[..2], [head[2]]);
    assert TrackAll(t, [head[2]]) == Track(TrackAll(t, []), head[2]) by {
      assert [head[2]][..0] == [];
    }
  }

  lemma TrackOne(t: Tracked, calls: seq<Call>, c: Call)
    ensures TrackAll(t, calls + [c]) == Track(TrackAll(t, calls), c)
  {
    assert (calls + [c])[..|calls|] == calls;
  }

  lemma QuietConcat(a: seq<Call>, b: seq<Call>)
    requires WritesNothing(a) && WritesNothing(b)
    ensures WritesNothing(a + b)
  {
  }

  /** Finishing a span leaves the status of the call behind. */
  lemma FinishIsTracked(config: Config, s: Span, outcome: Outcome)
    ensures TrackAll(s.born, s.calls + FinishCalls(config, s, outcome)) == Final(s).(code := StatusOf(outcome))
  {
    var peer := if s.kind == ClientKind then AttributeCalls([PeerIp, PeerPort]) else [];
    var bodies := BodyCalls(s.kind, BodyActs(config, s, outcome));
    var errors := AttributeCalls(if outcome.ok then [] else [FrameworkRet, FuncRet, ErrMsg]);
    var status := SetStatus(StatusOf(outcome));
    var quiet := peer + bodies + errors;
    QuietConcat(peer, bodies);
    QuietConcat(peer + bodies, errors);
    QuietThenStatus(s.born, s.calls, quiet, status);
    assert FinishCalls(config, s, outcome) == quiet + [status];
  }

  lemma QuietThenStatus(t: Tracked, calls: seq<Call>, quiet: seq<Call>, status: Call)
    requires WritesNothing(quiet)
    ensures TrackAll(t, calls + (quiet + [status])) == Track(TrackAll(t, calls), status)
  {
    TrackAllConcat(t, calls, quiet);
    UntrackedCalls(TrackAll(t, calls), quiet);
    TrackOne(t, calls + quiet, status);
    assert calls + (quiet + [status]) == calls + quiet + [status];
  }

  // ---------------------------------------------------------------------------------------------
  // The invariant
  // ---------------------------------------------------------------------------------------------

  /** All that the filters ever did to a span: at most one report of each body, in order, then one status,
      then one end; the status is the last one the recordable got, and a body was reported only for a sampled
      span or for an error under the filters' flag. */
  ghost predicate FinishedProperly(config: Config, acts: seq<Act>, sampled: bool, code: StatusCode) {
    var n := |acts| - 2;
    && n >= 0
    && acts[n] == WroteStatus(code) && acts[n + 1] == EndedByFilter
    && (code == Ok || code == Error)
    && (acts[..n] == [] || acts[..n] == [ReportedRequest] || acts[..n] == [ReportedResponse] ||
        acts[..n] == [ReportedRequest, ReportedResponse])
    && (n > 0 ==> !config.disableTraceBody && (sampled || (DeferredSampleError(config) && code == Error)))
  }

  /** The decision is the sampler's, on the parent flag and trace id the span was started with. */
  ghost predicate HeadInv(hits: RatioTest, config: Config, s: Span) {
    s.decision == Decide(hits, SamplerOptionsOf(config), s.parentSampled, s.context.traceId, s.forced)
  }

  ghost predicate TailInv(config: Config, s: Span) {
    && (s.context.sampled <==> s.decision.RecordAndSample?)
    && (s.decision.Drop? ==> !s.recording && s.calls == [] && s.acts == [])
    && (s.recording ==> s.acts == [])
    && (!s.decision.Drop? ==> Final(s).sampled == s.context.sampled)
    && (s.acts != [] ==> FinishedProperly(config, s.acts, s.context.sampled, Final(s).code)
                         && !NeverWritten(s.calls, CodeField))
  }

  /** The last thing an ended span's recordable received is its duration. */
  predicate EndIsLast(s: Span) {
    Ended(s) ==> s.calls != [] && s.calls[|s.calls| - 1].SetDuration?
  }

  ghost predicate SpanInv(config: Config, s: Span) {
    TailInv(config, s) && EndIsLast(s)
  }

  /** Whether the span at position `i` has ended and was (or was not) to be exported. */
  ghost predicate EndedWith(config: Config, w: World, i: nat, exports: bool) {
    i < |w.spans| && Ended(w.spans[i]) && Exports(config, w.spans[i]) == exports
  }

  /** Each ended span is in the one list its last values call for, once; no other span is in either. */
  ghost predicate Accounted(config: Config, w: World) {
    forall i: nat ::
      && multiset(w.exported)[i] == (if EndedWith(config, w, i, true) then 1 else 0)
      && multiset(w.discarded)[i] == (if EndedWith(config, w, i, false) then 1 else 0)
  }

  ghost predicate LogsInv(config: Config, w: World) {
    forall k :: 0 <= k < |w.logs| ==>
      && w.logs[k].span < |w.spans|
      && ShouldReport(config, w.logs[k].level, w.spans[w.logs[k].span].context.sampled)
  }

  ghost predicate Inv(config: Config, w: World) {
    && (forall i :: 0 <= i < |w.spans| ==> SpanInv(config, w.spans[i]))
    && Accounted(config, w)
    && LogsInv(config, w)
  }

  // ---------------------------------------------------------------------------------------------
  // Every step keeps it
  // ---------------------------------------------------------------------------------------------

  lemma NewSpanInv(hits: RatioTest, config: Config, kind: SpanKind, parent: SpanContext, start: Start)
    ensures TailInv(config, NewSpan(hits, config, kind, parent, start))
    ensures !Ended(NewSpan(hits, config, kind, parent, start))
  {
    var s := NewSpan(hits, config, kind, parent, start);
    if !s.decision.Drop? {
      StartIsTracked(s.born, kind, s.context, parent, start);
    }
  }

  /** Adding a span that has not ended accounts for it already. */
  lemma AddSpan(config: Config, w: World, w': World, s: Span)
    requires Inv(config, w) && TailInv(config, s) && !Ended(s)
    requires w'.spans == w.spans + [s]
    requires w'.exported == w.exported && w'.discarded == w.discarded && w'.logs == w.logs
    ensures Inv(config, w')
  {
    forall i: nat, exports: bool ensures EndedWith(config, w', i, exports) <==> EndedWith(config, w, i, exports) {
      if i < |w.spans| {
        assert w'.spans[i] == w.spans[i];
      } else if i == |w.spans| {
        assert w'.spans[i] == s;
      }
    }
  }

  /** Rewriting a span that is still recording changes no account. */
  lemma RewriteSpan(config: Config, w: World, i: nat, s: Span)
    requires i < |w.spans| && w.spans[i].recording && !Ended(s)
    requires Accounted(config, w)
    ensures Accounted(config, SetSpan(w, i, s))
  {
    var w' := SetSpan(w, i, s);
    forall k: nat, exports: bool ensures EndedWith(config, w', k, exports) <==> EndedWith(config, w, k, exports) {
      if k < |w.spans| && k != i {
        assert w'.spans[k] == w.spans[k];
      }
    }
  }

  lemma UserCallInv(config: Config, w: World, i: nat, c: Call)
    requires Inv(config, w) && i < |w.spans| && w.spans[i].recording && OnUserInterface(c)
    ensures Inv(config, SetSpan(w, i, w.spans[i].(calls := w.spans[i].calls + [c])))
  {
    var s := w.spans[i];
    var s' := s.(calls := s.calls + [c]);
    TrackOne(s.born, s.calls, c);
    RewriteSpan(config, w, i, s');
    assert TailInv(config, s');
  }

  /** `End` puts the span into the list its last values call for, and moves no other. */
  lemma EndSpanAccount(config: Config, w: World, i: nat, duration: Int64)
    requires i < |w.spans| && w.spans[i].recording && !w.spans[i].decision.Drop?
    requires Accounted(config, w)
    ensures Accounted(config, EndSpan(config, w, i, duration))
  {
    var w' := EndSpan(config, w, i, duration);
    var exports := Exports(config, w'.spans[i]);
    assert Ended(w'.spans[i]);
    forall k: nat
      ensures multiset(w'.exported)[k] == (if EndedWith(config, w', k, true) then 1 else 0)
      ensures multiset(w'.discarded)[k] == (if EndedWith(config, w', k, false) then 1 else 0)
    {
      assert multiset(w.exported)[k] == (if EndedWith(config, w, k, true) then 1 else 0);
      assert multiset(w.discarded)[k] == (if EndedWith(config, w, k, false) then 1 else 0);
      if k == i {
        assert !EndedWith(config, w, k, true) && !EndedWith(config, w, k, false);
      } else if k < |w.spans| {
        assert w'.spans[k] == w.spans[k];
      }
    }
  }

  /** Setting the duration of a span that has stopped keeps its invariant. */
  lemma DurationKeepsTailInv(config: Config, s: Span, duration: Int64)
    requires TailInv(config, s) && Ended(s)
    ensures TailInv(config, s.(calls := s.calls + [SetDuration(duration)]))
  {
    EndIsTracked(s, duration);
    WrittenStays(s.calls, [SetDuration(duration)], CodeField);
  }

  lemma WrittenStays(calls: seq<Call>, more: seq<Call>, field: Field)
    ensures NeverWritten(calls + more, field) <==> NeverWritten(calls, field) && NeverWritten(more, field)
  {
    if NeverWritten(calls + more, field) {
      forall j | 0 <= j < |calls| ensures !Writes(calls[j], field) {
        assert calls[j] == (calls + more)[j];
      }
      forall j | 0 <= j < |more| ensures !Writes(more[j], field) {
        assert more[j] == (calls + more)[|calls| + j];
      }
    }
  }

  lemma EndIsTracked(s: Span, duration: Int64)
    ensures Final(s.(calls := s.calls + [SetDuration(duration)])) == Final(s).(duration := duration)
  {
    var call := SetDuration(duration);
    var s' := s.(calls := s.calls + [call]);
    TrackOne(s.born, s.calls, call);
    assert s'.born == s.born && s'.calls == s.calls + [call];
    assert Final(s') == Track(Final(s), call);
  }

  /** `End` keeps the invariant if the span it finds satisfies it but for still recording: a filter has
      by then recorded what it did. */
  lemma EndSpanInv(config: Config, w: World, i: nat, duration: Int64)
    requires i < |w.spans| && w.spans[i].recording && !w.spans[i].decision.Drop?
    requires Accounted(config, w) && LogsInv(config, w)
    requires forall k :: 0 <= k < |w.spans| && k != i ==> SpanInv(config, w.spans[k])
    requires TailInv(config, w.spans[i].(recording := false))
    ensures Inv(config, EndSpan(config, w, i, duration))
  {
    EndSpanAccount(config, w, i, duration);
    DurationKeepsTailInv(config, w.spans[i].(recording := false), duration);
    var w' := EndSpan(config, w, i, duration);
    assert forall k :: 0 <= k < |w.spans| && k != i ==> w'.spans[k] == w.spans[k];
    assert forall k :: 0 <= k < |w.spans| ==> w'.spans[k].context == w.spans[k].context;
  }

  lemma FinishLeavesProperSpan(config: Config, s: Span, outcome: Outcome)
    requires TailInv(config, s) && s.recording
    ensures TailInv(config, MarkFinished(config, s, outcome).(recording := false))
  {
    var stopped := MarkFinished(config, s, outcome).(recording := false);
    FinishIsTracked(config, s, outcome);
    var bodies := BodyActs(config, s, outcome);
    assert bodies == [] || bodies == [ReportedRequest] || bodies == [ReportedResponse] ||
           bodies == [ReportedRequest, ReportedResponse];
    assert stopped.acts == FinishActs(config, s, outcome);
    assert |stopped.acts| - 2 == |bodies| && stopped.acts[..|bodies|] == bodies;
    StatusIsWritten(config, s, outcome);
    WrittenStays(s.calls, FinishCalls(config, s, outcome), CodeField);
  }

  lemma StatusIsWritten(config: Config, s: Span, outcome: Outcome)
    ensures !NeverWritten(FinishCalls(config, s, outcome), CodeField)
  {
    var calls := FinishCalls(config, s, outcome);
    assert Writes(calls[|calls| - 1], CodeField);
  }

  /** Marking a span that is still recording keeps everything but the invariant of that span. */
  lemma MarkKeepsOthers(config: Config, w: World, i: nat, marked: Span)
    requires Inv(config, w) && i < |w.spans| && w.spans[i].recording && !Ended(marked)
    requires marked.context == w.spans[i].context
    ensures var w' := SetSpan(w, i, marked);
            && Accounted(config, w') && LogsInv(config, w')
            && forall k :: 0 <= k < |w'.spans| && k != i ==> SpanInv(config, w'.spans[k])
  {
    RewriteSpan(config, w, i, marked);
    var w' := SetSpan(w, i, marked);
    assert forall k :: 0 <= k < |w.spans| ==> w'.spans[k].context == w.spans[k].context;
  }

  lemma FinishSpanInv(config: Config, w: World, i: nat, outcome: Outcome)
    requires Inv(config, w) && i < |w.spans|
    ensures Inv(config, FinishSpan(config, w, i, outcome))
  {
    var s := w.spans[i];
    if s.recording {
      FinishLeavesProperSpan(config, s, outcome);
      MarkKeepsOthers(config, w, i, MarkFinished(config, s, outcome));
      EndSpanInv(config, SetSpan(w, i, MarkFinished(config, s, outcome)), i, outcome.duration);
    }
  }

  lemma SameSpansSameInv(config: Config, w: World, w': World)
    requires Inv(config, w)
    requires w'.spans == w.spans && w'.exported == w.exported && w'.discarded == w.discarded
    requires LogsInv(config, w')
    ensures Inv(config, w')
  {
    assert forall i: nat, exports: bool :: EndedWith(config, w', i, exports) <==> EndedWith(config, w, i, exports);
  }

  lemma ServerStepKeepsInv(hits: RatioTest, config: Config, w: World, e: Event)
    requires Inv(config, w) && (e.ServerPre? || e.ServerPost? || e.Log?)
    ensures Inv(config, Step(hits, config, w, e))
  {
    match e
    case ServerPre(_, upstream, start) =>
      NewSpanInv(hits, config, ServerKind, upstream, start);
      AddSpan(config, w, Step(hits, config, w, e), NewSpan(hits, config, ServerKind, upstream, start));
    case ServerPost(call, outcome) =>
      if call in w.server && w.server[call] < |w.spans| {
        FinishSpanInv(config, w, w.server[call], outcome);
      }
    case Log(call, level) =>
      SameSpansSameInv(config, w, Step(hits, config, w, e));
  }

  lemma ClientStepKeepsInv(hits: RatioTest, config: Config, w: World, e: Event)
    requires Inv(config, w) && (e.LinkClient? || e.ClientPre? || e.ClientPost?)
    ensures Inv(config, Step(hits, config, w, e))
  {
    match e
    case LinkClient(_, _) =>
      SameSpansSameInv(config, w, Step(hits, config, w, e));
    case ClientPre(call, callee, start) =>
      if !SkipsCall(config, callee) {
        var parent := ParentContext(w, ClientDataOf(w, call));
        NewSpanInv(hits, config, ClientKind, parent, start);
        AddSpan(config, w, Step(hits, config, w, e), NewSpan(hits, config, ClientKind, parent, start));
      }
    case ClientPost(call, callee, outcome) =>
      if !SkipsCall(config, callee) {
        var data := ClientDataOf(w, call);
        var w' := w.(client := w.client[call := data]);
        SameSpansSameInv(config, w, w');
        if data.span.Some? && data.span.value < |w.spans| {
          FinishSpanInv(config, w', data.span.value, outcome);
        }
      }
  }

  lemma StepKeepsInv(hits: RatioTest, config: Config, w: World, e: Event)
    requires Inv(config, w)
    ensures Inv(config, Step(hits, config, w, e))
  {
    match e
    case UserCall(i, c) =>
      if i < |w.spans| && w.spans[i].recording && OnUserInterface(c) {
        UserCallInv(config, w, i, c);
      }
    case EndElsewhere(i, duration) =>
      if i < |w.spans| && w.spans[i].recording {
        EndSpanInv(config, w, i, duration);
      }
    case LinkClient(_, _) => ClientStepKeepsInv(hits, config, w, e);
    case ClientPre(_, _, _) => ClientStepKeepsInv(hits, config, w, e);
    case ClientPost(_, _, _) => ClientStepKeepsInv(hits, config, w, e);
    case _ => ServerStepKeepsInv(hits, config, w, e);
  }

  lemma {:induction false} InvHolds(hits: RatioTest, config: Config, events: seq<Event>)
    ensures Inv(config, Run(hits, config, events))
    decreases |events|
  {
    if events != [] {
      var rest := events[..|events| - 1];
      InvHolds(hits, config, rest);
      StepKeepsInv(hits, config, Run(hits, config, rest), events[|events| - 1]);
    }
  }

  // ---------------------------------------------------------------------------------------------
  // Decisions are made once
  // ---------------------------------------------------------------------------------------------

  /** Everything fixed when a span starts. */
  ghost predicate SameHead(s: Span, s': Span) {
    && s'.kind == s.kind && s'.forced == s.forced && s'.parentSampled == s.parentSampled
    && s'.decision == s.decision && s'.context == s.context && s'.born == s.born
  }

  /** The same spans, started the same way. */
  ghost predicate HeadsKept(w: World, w': World) {
    |w'.spans| == |w.spans| && forall i :: 0 <= i < |w.spans| ==> SameHead(w.spans[i], w'.spans[i])
  }

  lemma EndKeepsHeads(config: Config, w: World, i: nat, duration: Int64)
    requires i < |w.spans|
    ensures HeadsKept(w, EndSpan(config, w, i, duration))
  {
  }

  lemma FinishKeepsHeads(config: Config, w: World, i: nat, outcome: Outcome)
    requires i < |w.spans|
    ensures HeadsKept(w, FinishSpan(config, w, i, outcome))
  {
    if w.spans[i].recording {
      EndKeepsHeads(config, SetSpan(w, i, MarkFinished(config, w.spans[i], outcome)), i, outcome.duration);
    }
  }

  ghost predicate AllHeads(hits: RatioTest, config: Config, w: World) {
    forall i :: 0 <= i < |w.spans| ==> HeadInv(hits, config, w.spans[i])
  }

  lemma SameHeadsSameInv(hits: RatioTest, config: Config, w: World, w': World)
    requires AllHeads(hits, config, w) && HeadsKept(w, w')
    ensures AllHeads(hits, config, w')
  {
    forall i | 0 <= i < |w'.spans| ensures HeadInv(hits, config, w'.spans[i]) {
      assert HeadInv(hits, config, w.spans[i]) && SameHead(w.spans[i], w'.spans[i]);
    }
  }

  lemma NewSpanHead(hits: RatioTest, config: Config, kind: SpanKind, parent: SpanContext, start: Start)
    ensures HeadInv(hits, config, NewSpan(hits, config, kind, parent, start))
  {
  }

  /** A step adds a span as `NewSpan` makes it, or keeps how every span started. */
  lemma StepKeepsAllHeads(hits: RatioTest, config: Config, w: World, e: Event)
    requires AllHeads(hits, config, w)
    ensures AllHeads(hits, config, Step(hits, config, w, e))
  {
    var w' := Step(hits, config, w, e);
    match e
    case ServerPre(_, upstream, start) =>
      NewSpanHead(hits, config, ServerKind, upstream, start);
    case ServerPost(call, outcome) =>
      if call in w.server && w.server[call] < |w.spans| {
        FinishKeepsHeads(config, w, w.server[call], outcome);
        SameHeadsSameInv(hits, config, w, w');
      }
    case ClientPre(call, callee, start) =>
      if !SkipsCall(config, callee) {
        NewSpanHead(hits, config, ClientKind, ParentContext(w, ClientDataOf(w, call)), start);
      }
    case ClientPost(call, callee, outcome) =>
      var data := ClientDataOf(w, call);
      if !SkipsCall(config, callee) && data.span.Some? && data.span.value < |w.spans| {
        FinishKeepsHeads(config, w.(client := w.client[call := data]), data.span.value, outcome);
        SameHeadsSameInv(hits, config, w, w');
      }
    case EndElsewhere(i, duration) =>
      if i < |w.spans| {
        EndKeepsHeads(config, w, i, duration);
        SameHeadsSameInv(hits, config, w, w');
      }
    case UserCall(_, _) => SameHeadsSameInv(hits, config, w, w');
    case LinkClient(_, _) =>
    case Log(_, _) =>
  }

  lemma {:induction false} HeadsHold(hits: RatioTest, config: Config, events: seq<Event>)
    ensures AllHeads(hits, config, Run(hits, config, events))
    decreases |events|
  {
    if events != [] {
      var rest := events[..|events| - 1];
      HeadsHold(hits, config, rest);
      StepKeepsAllHeads(hits, config, Run(hits, config, rest), events[|events| - 1]);
    }
  }

  // ---------------------------------------------------------------------------------------------
  // The theorems
  // ---------------------------------------------------------------------------------------------

  /** The three reasons to sample a span at its start, in the terms of the configuration. */
  ghost predicate Sampled(hits: RatioTest, config: Config, s: Span) {
    s.forced || (s.parentSampled && !config.disableParentSampling) || hits(s.context.traceId)
  }

  /** The latency limit in nanoseconds. */
  function SlowLimitNs(config: Config): int {
    config.deferredSampleSlowDuration * 1_000_000
  }

  /** No configured limit overflows the two unit conversions. */
  lemma SlowLimitFits(config: Config, duration: Int64)
    ensures IsSlow(duration, ProcessorOf(config).sampleSlowDuration) <==> duration > SlowLimitNs(config)
  {
    WrapIsIdentityIffItFits(ProcessorOf(config).sampleSlowDuration * 1000);
  }

  /** The processor's decision in the terms of the configuration. */
  lemma DeferredDecision(config: Config, t: Tracked)
    requires config.enableDeferredSample
    ensures ShouldSampleDeferred(ProcessorOf(config), t)
       <==> t.sampled || (config.enableSampleError && t.code != Ok) || t.duration > SlowLimitNs(config)
  {
    SlowLimitFits(config, t.duration);
  }

  /** The reasons deferral has for exporting a span at its end. */
  predicate TailReason(config: Config, t: Tracked) {
    config.enableDeferredSample && ((config.enableSampleError && t.code != Ok) || t.duration > SlowLimitNs(config))
  }

  /** An ended span was exported exactly if it was forced, inherited a sampled parent or hit the ratio, or
      deferral is on and its last status is not Ok, with the error option, or its last duration exceeds
      the limit; and it was exported or discarded once, never both. */
  ghost predicate ExportExplained(hits: RatioTest, config: Config, w: World, i: nat)
    requires i < |w.spans|
  {
    var s := w.spans[i];
    && (i in w.exported
        <==> Sampled(hits, config, s) || TailReason(config, Final(s)))
    && multiset(w.exported)[i] + multiset(w.discarded)[i] == 1
  }

  ghost predicate ExportsExplained(hits: RatioTest, config: Config, w: World) {
    forall i: nat :: i < |w.spans| && Ended(w.spans[i]) ==> ExportExplained(hits, config, w, i)
  }

  /** In every run the export of every ended span is explained. */
  lemma ExportedIff(hits: RatioTest, config: Config, events: seq<Event>)
    ensures ExportsExplained(hits, config, Run(hits, config, events))
  {
    var w := Run(hits, config, events);
    InvHolds(hits, config, events);
    HeadsHold(hits, config, events);
    forall i: nat | i < |w.spans| && Ended(w.spans[i]) ensures ExportExplained(hits, config, w, i) {
      EndedSpanIsExplained(hits, config, w, i);
    }
  }

  lemma EndedSpanIsExplained(hits: RatioTest, config: Config, w: World, i: nat)
    requires Inv(config, w) && i < |w.spans| && Ended(w.spans[i]) && HeadInv(hits, config, w.spans[i])
    ensures ExportExplained(hits, config, w, i)
  {
    var s := w.spans[i];
    if config.enableDeferredSample {
      DeferredDecision(config, Final(s));
    }
    assert TailInv(config, s);
    assert EndedWith(config, w, i, Exports(config, s));
    assert multiset(w.exported)[i] == (if EndedWith(config, w, i, true) then 1 else 0);
    assert multiset(w.discarded)[i] == (if EndedWith(config, w, i, false) then 1 else 0);
  }

  /** The filters' work on a span: at most one report of the request, then at most one of the response,
      then one status, then one end. */
  ghost predicate FinishedWith(s: Span, bodies: seq<Act>, code: StatusCode) {
    && (bodies == [] || bodies == [ReportedRequest] || bodies == [ReportedResponse] ||
        bodies == [ReportedRequest, ReportedResponse])
    && (code == Ok || code == Error)
    && s.acts == bodies + [WroteStatus(code), EndedByFilter]
  }

  lemma ActsHaveShape(config: Config, s: Span) returns (bodies: seq<Act>, code: StatusCode)
    requires TailInv(config, s) && s.acts != []
    ensures FinishedWith(s, bodies, code) && Final(s).code == code
    ensures bodies != [] ==> s.context.sampled || (DeferredSampleError(config) && code == Error)
  {
    var n := |s.acts| - 2;
    bodies, code := s.acts[..n], s.acts[n].code;
    assert s.acts == s.acts[..n] + [s.acts[n], s.acts[n + 1]];
  }

  /** A span is dropped exactly if nothing samples it and deferral is off, and an unsampled span is
      recorded exactly if deferral is on; what its context hands to its children is the decision. */
  ghost predicate DecisionExplained(hits: RatioTest, config: Config, s: Span) {
    && (s.context.sampled <==> Sampled(hits, config, s))
    && (s.decision.Drop? <==> !Sampled(hits, config, s) && !config.enableDeferredSample)
    && (s.decision.RecordOnly? <==> !Sampled(hits, config, s) && config.enableDeferredSample)
  }

  ghost predicate DecisionsExplained(hits: RatioTest, config: Config, w: World) {
    forall i :: 0 <= i < |w.spans| ==> DecisionExplained(hits, config, w.spans[i])
  }

  /** In every run the decision on every span is explained. */
  lemma RecordedIff(hits: RatioTest, config: Config, events: seq<Event>)
    ensures DecisionsExplained(hits, config, Run(hits, config, events))
  {
    InvHolds(hits, config, events);
    HeadsHold(hits, config, events);
    var w := Run(hits, config, events);
    forall i | 0 <= i < |w.spans| ensures DecisionExplained(hits, config, w.spans[i]) {
      assert HeadInv(hits, config, w.spans[i]) && TailInv(config, w.spans[i]);
    }
  }

  /** In every run, all that the filters ever do to a span is nothing, or to finish it once. They never touch
      a dropped span, a span they finished has ended, the last status its recordable received is theirs,
      and the member that starts uninitialised has been written before the processor reads it. */
  lemma FinishedOnce(hits: RatioTest, config: Config, events: seq<Event>, i: nat)
    requires i < |Run(hits, config, events).spans|
    ensures var s := Run(hits, config, events).spans[i];
            && (s.decision.Drop? ==> s.acts == [] && s.calls == [])
            && (s.acts != [] ==> && Ended(s) && |s.acts| >= 2
                                 && FinishedWith(s, s.acts[..|s.acts| - 2], Final(s).code)
                                 && !NeverWritten(s.calls, CodeField))
  {
    InvHolds(hits, config, events);
    var s := Run(hits, config, events).spans[i];
    assert TailInv(config, s);
    if s.acts != [] {
      ActsSplit(config, s);
    }
  }

  lemma ActsSplit(config: Config, s: Span)
    requires TailInv(config, s) && s.acts != []
    ensures |s.acts| >= 2 && FinishedWith(s, s.acts[..|s.acts| - 2], Final(s).code)
  {
    var bodies, code := ActsHaveShape(config, s);
    assert s.acts[..|s.acts| - 2] == bodies;
  }

  predicate CarriesBody(s: Span) {
    ReportedRequest in s.acts || ReportedResponse in s.acts
  }

  /** Every span that carries a request or response body has been exported. */
  ghost predicate NoBodyWasted(w: World) {
    forall i: nat :: i < |w.spans| && CarriesBody(w.spans[i]) ==> i in w.exported
  }

  /** In every run, no body is wasted: the flag of the filters and the option of the processor never
      disagree in that direction. */
  lemma BodiesAreExported(hits: RatioTest, config: Config, events: seq<Event>)
    ensures NoBodyWasted(Run(hits, Wired(config), events))
  {
    BodiesFollowTheErrorOption(hits, Wired(config), events);
  }

  /** However the processor is wired, this holds as long as its error option is on whenever the filters'
      flag is. */
  lemma BodiesFollowTheErrorOption(hits: RatioTest, config: Config, events: seq<Event>)
    requires DeferredSampleError(config) ==> config.enableSampleError
    ensures NoBodyWasted(Run(hits, config, events))
  {
    var w := Run(hits, config, events);
    InvHolds(hits, config, events);
    HeadsHold(hits, config, events);
    forall i: nat | i < |w.spans| && CarriesBody(w.spans[i]) ensures i in w.exported {
      BodyIsExported(hits, config, w, i);
    }
  }

  lemma BodyIsExported(hits: RatioTest, config: Config, w: World, i: nat)
    requires DeferredSampleError(config) ==> config.enableSampleError
    requires Inv(config, w) && AllHeads(hits, config, w) && i < |w.spans| && CarriesBody(w.spans[i])
    ensures i in w.exported
  {
    assert SpanInv(config, w.spans[i]) && HeadInv(hits, config, w.spans[i]);
    BodyNeedsReason(config, w.spans[i]);
    EndedSpanIsExplained(hits, config, w, i);
  }

  lemma BodyNeedsReason(config: Config, s: Span)
    requires TailInv(config, s) && CarriesBody(s)
    ensures Ended(s)
    ensures s.context.sampled || (DeferredSampleError(config) && Final(s).code == Error)
  {
    var bodies, code := ActsHaveShape(config, s);
    if bodies == [] {
      NoBodies(s, code);
    }
  }

  lemma NoBodies(s: Span, code: StatusCode)
    requires FinishedWith(s, [], code)
    ensures !CarriesBody(s)
  {
    assert s.acts == [WroteStatus(code), EndedByFilter];
  }

  /** The spans that got a recordable, and those whose recordable is still with its span. */
  ghost function Made(w: World): set<nat> {
    set i: nat | i < |w.spans| && !w.spans[i].decision.Drop?
  }

  ghost function Live(w: World): set<nat> {
    set i: nat | i < |w.spans| && w.spans[i].recording
  }

  /** In every run, recordables are conserved: each one made is handed on, destroyed or still with its
      span, and exactly one of the three, once. */
  lemma RecordablesAreConserved(hits: RatioTest, config: Config, events: seq<Event>)
    ensures Conserved(Run(hits, config, events))
  {
    InvHolds(hits, config, events);
    InvConserves(config, Run(hits, config, events));
  }

  ghost predicate Conserved(w: World) {
    multiset(w.exported) + multiset(w.discarded) + multiset(Live(w)) == multiset(Made(w))
  }

  lemma InvConserves(config: Config, w: World)
    requires Inv(config, w)
    ensures Conserved(w)
  {
    var all := multiset(w.exported) + multiset(w.discarded) + multiset(Live(w));
    forall i: nat ensures all[i] == multiset(Made(w))[i] {
      assert multiset(w.exported)[i] == (if EndedWith(config, w, i, true) then 1 else 0);
      assert multiset(w.discarded)[i] == (if EndedWith(config, w, i, false) then 1 else 0);
      if i < |w.spans| {
        assert TailInv(config, w.spans[i]);
      }
    }
  }

  /** In every run with log sampling on, a reported log line that is below error level, or any reported
      line when unsampled errors are not reported either, belongs to a sampled span; once that span has
      ended, its trace has been exported. */
  lemma ReportedLogsHaveTraces(hits: RatioTest, config: Config, events: seq<Event>, k: nat)
    requires k < |Run(hits, config, events).logs| && config.logSampler
    requires Run(hits, config, events).logs[k].level < LEVEL_ERROR || !config.logSamplerError
    ensures var w := Run(hits, config, events);
            var i := w.logs[k].span;
            && i < |w.spans| && w.spans[i].context.sampled
            && (!w.spans[i].recording ==> i in w.exported)
  {
    InvHolds(hits, config, events);
    var w := Run(hits, config, events);
    var i := w.logs[k].span;
    HeadsHold(hits, config, events);
    assert TailInv(config, w.spans[i]) && HeadInv(hits, config, w.spans[i]);
    if !w.spans[i].recording {
      EndedSpanIsExplained(hits, config, w, i);
    }
  }

  /** Everything exported that should be, no body wasted, no recordable lost. */
  ghost predicate PromisesKept(hits: RatioTest, config: Config, w: World) {
    ExportsExplained(hits, config, w) && NoBodyWasted(w) && Conserved(w)
  }

  lemma RunKeepsPromises(hits: RatioTest, config: Config, events: seq<Event>)
    requires config == Wired(config)
    ensures PromisesKept(hits, config, Run(hits, config, events))
  {
    ExportedIff(hits, config, events);
    BodiesAreExported(hits, config, events);
    RecordablesAreConserved(hits, config, events);
  }

  /** So the plugin, whatever calls it has seen, keeps them in its own fields. */
  lemma PluginKeepsPromises(p: TracingPlugin)
    ensures p.Valid() ==> PromisesKept(p.Hits(), p.config, p.State())
  {
    if p.Valid() {
      RunKeepsPromises(p.Hits(), p.config, p.events);
    }
  }

  function PeerKeys(s: Span): seq<AttributeKey> {
    if s.kind == ClientKind then [PeerIp, PeerPort] else []
  }

  function ErrorKeys(outcome: Outcome): seq<AttributeKey> {
    if outcome.ok then [] else [FrameworkRet, FuncRet, ErrMsg]
  }

  lemma FinishMembers(config: Config, s: Span, outcome: Outcome)
    ensures forall c: Call :: c in FinishCalls(config, s, outcome)
                         <==> || (c.SetAttribute? && (c.key in PeerKeys(s) || c.key in ErrorKeys(outcome)))
                              || c in BodyCalls(s.kind, BodyActs(config, s, outcome))
                              || c == SetStatus(StatusOf(outcome))
  {
    var bodies := BodyCalls(s.kind, BodyActs(config, s, outcome));
    var status := [SetStatus(StatusOf(outcome))];
    assert FinishCalls(config, s, outcome) ==
           AttributeCalls(PeerKeys(s)) + bodies + AttributeCalls(ErrorKeys(outcome)) + status by {
      assert AttributeCalls([]) == [];
    }
    AttributesIn(PeerKeys(s));
    AttributesIn(ErrorKeys(outcome));
  }

  /** What `FinishSpan` tells the recordable: the request is an event called SENT on a client span and
      RECEIVED on a server span, the response the other way round, and neither appears without reason. */
  lemma BodiesHaveDirections(config: Config, s: Span, outcome: Outcome)
    ensures var calls := FinishCalls(config, s, outcome);
            var report := NeedReportReqRsp(config, s, outcome);
            var client := s.kind == ClientKind;
            && (AddEvent(Sent) in calls
                <==> report && if client then outcome.protobufRequest else outcome.protobufResponse)
            && (AddEvent(Received) in calls
                <==> report && if client then outcome.protobufResponse else outcome.protobufRequest)
  {
    FinishMembers(config, s, outcome);
    var acts := BodyActs(config, s, outcome);
    BodiesIn(s.kind, acts);
    assert ReportedRequest in acts <==> NeedReportReqRsp(config, s, outcome) && outcome.protobufRequest;
    assert ReportedResponse in acts <==> NeedReportReqRsp(config, s, outcome) && outcome.protobufResponse;
    assert forall k :: 0 <= k < |acts| ==> acts[k] == ReportedRequest || acts[k] == ReportedResponse;
  }

  /** The error attributes come with an error only, and a client span gets its peer now; there is exactly
      one status, and it is the last call. */
  lemma StatusComesLast(config: Config, s: Span, outcome: Outcome)
    ensures var calls := FinishCalls(config, s, outcome);
            && (forall key :: SetAttribute(key) in calls <==>
                  || (s.kind == ClientKind && (key == PeerIp || key == PeerPort))
                  || (!outcome.ok && (key == FrameworkRet || key == FuncRet || key == ErrMsg)))
            && |calls| > 0 && calls[|calls| - 1] == SetStatus(if outcome.ok then Ok else Error)
            && (forall k :: 0 <= k < |calls| - 1 ==> !calls[k].SetStatus?)
  {
    FinishMembers(config, s, outcome);
    BodiesIn(s.kind, BodyActs(config, s, outcome));
  }

  lemma AttributesIn(keys: seq<AttributeKey>)
    ensures forall c: Call :: c in AttributeCalls(keys) <==> c.SetAttribute? && c.key in keys
  {
    forall c: Call | c.SetAttribute? && c.key in keys ensures c in AttributeCalls(keys) {
      var k :| 0 <= k < |keys| && keys[k] == c.key;
      assert AttributeCalls(keys)[k] == c;
    }
  }

  lemma BodiesIn(kind: SpanKind, acts: seq<Act>)
    ensures forall c: Call :: c in BodyCalls(kind, acts) <==> exists k :: 0 <= k < |acts| && c == BodyCall(kind, acts[k])
  {
    forall k | 0 <= k < |acts| ensures BodyCall(kind, acts[k]) in BodyCalls(kind, acts) {
      assert BodyCalls(kind, acts)[k] == BodyCall(kind, acts[k]);
    }
  }

  // ---------------------------------------------------------------------------------------------
  // The members without an initial value
  // ---------------------------------------------------------------------------------------------

  /** The span, had its recordable been constructed over other garbage. */
  function OverGarbage(s: Span, code: StatusCode, duration: Int64): Span {
    s.(born := Tracked(s.born.sampled, code, duration))
  }

  /** Whether the processor's answer on a span depends on what its members held on construction. */
  ghost predicate GarbageDecides(config: Config, s: Span) {
    exists c: StatusCode, d: Int64, c': StatusCode, d': Int64 ::
      Exports(config, OverGarbage(s, c, d)) != Exports(config, OverGarbage(s, c', d'))
  }

  /** The garbage decides about a span exactly if nobody ever set a status on it, deferral is on with the
      error option, nothing sampled it, and it was fast enough. */
  ghost predicate GarbageExplained(hits: RatioTest, config: Config, s: Span) {
    GarbageDecides(config, s)
    <==> && NeverWritten(s.calls, CodeField)
         && config.enableDeferredSample && config.enableSampleError
         && !Sampled(hits, config, s) && Final(s).duration <= SlowLimitNs(config)
  }

  /** In every run this holds of every ended span. */
  lemma GarbageDecidesIff(hits: RatioTest, config: Config, events: seq<Event>)
    ensures var w := Run(hits, config, events);
            forall i :: 0 <= i < |w.spans| && Ended(w.spans[i]) ==> GarbageExplained(hits, config, w.spans[i])
  {
    InvHolds(hits, config, events);
    HeadsHold(hits, config, events);
    var w := Run(hits, config, events);
    forall i | 0 <= i < |w.spans| && Ended(w.spans[i]) ensures GarbageExplained(hits, config, w.spans[i]) {
      assert SpanInv(config, w.spans[i]) && HeadInv(hits, config, w.spans[i]);
      GarbageOfSpan(hits, config, w.spans[i]);
    }
  }

  lemma GarbageOfSpan(hits: RatioTest, config: Config, s: Span)
    requires SpanInv(config, s) && HeadInv(hits, config, s) && Ended(s)
    ensures GarbageExplained(hits, config, s)
  {
    forall c: StatusCode, d: Int64
      ensures Exports(config, OverGarbage(s, c, d))
         <==> || !config.enableDeferredSample
              || ShouldSampleDeferred(ProcessorOf(config),
                                      Final(s).(code := if NeverWritten(s.calls, CodeField) then c else Final(s).code))
    {
      FinalOverGarbage(s, c, d);
    }
    if config.enableDeferredSample {
      DeferredDecision(config, Final(s).(code := Ok));
      DeferredDecision(config, Final(s).(code := Error));
      DeferredDecision(config, Final(s).(code := Unset));
    }
    assert Exports(config, OverGarbage(s, Ok, 0)) != Exports(config, OverGarbage(s, Error, 0))
      <==> && NeverWritten(s.calls, CodeField)
           && config.enableDeferredSample && config.enableSampleError
           && !Sampled(hits, config, s) && Final(s).duration <= SlowLimitNs(config);
  }

  /** Of the garbage, at most the code can be left at the end. */
  lemma FinalOverGarbage(s: Span, code: StatusCode, duration: Int64)
    requires Ended(s) && EndIsLast(s)
    ensures Final(OverGarbage(s, code, duration)) ==
            Final(s).(code := if NeverWritten(s.calls, CodeField) then code else Final(s).code)
  {
    var before := s.calls[..|s.calls| - 1];
    assert s.calls == before + [s.calls[|s.calls| - 1]];
    CodeOfRun(s.born, OverGarbage(s, code, duration).born, before);
    WrittenStays(before, [s.calls[|s.calls| - 1]], CodeField);
  }

  /** Two recordables that differ in their garbage end up with the same flag, and with the same code once
      it has been written. */
  lemma {:induction false} CodeOfRun(t: Tracked, t': Tracked, calls: seq<Call>)
    requires t.sampled == t'.sampled
    ensures TrackAll(t, calls).sampled == TrackAll(t', calls).sampled
    ensures if NeverWritten(calls, CodeField) then TrackAll(t, calls).code == t.code && TrackAll(t', calls).code == t'.code
            else TrackAll(t, calls).code == TrackAll(t', calls).code
    decreases |calls|
  {
    if calls != [] {
      var n := |calls| - 1;
      CodeOfRun(t, t', calls[..n]);
      WrittenStays(calls[..n], [calls[n]], CodeField);
      assert calls == calls[..n] + [calls[n]];
    }
  }

  /** In every run, a span that ended without anybody setting a status on it is judged by whatever its
      recordable held on construction. */
  lemma UnsetStatusDecides(hits: RatioTest, config: Config, events: seq<Event>, i: nat)
    requires i < |Run(hits, config, events).spans| && Ended(Run(hits, config, events).spans[i])
    requires NeverWritten(Run(hits, config, events).spans[i].calls, CodeField)
    ensures var w := Run(hits, config, events);
            var s := w.spans[i];
            i in w.exported <==> Sampled(hits, config, s) || TailReason(config, Final(s).(code := s.born.code))
  {
    ExportedIff(hits, config, events);
    var s := Run(hits, config, events).spans[i];
    UnwrittenFieldIsKept(s.born, s.calls, CodeField);
    assert Final(s) == Final(s).(code := s.born.code);
    assert ExportExplained(hits, config, Run(hits, config, events), i);
  }

  /** This does happen: a span that is started, not sampled, and let go again. */
  lemma UnsetStatusWitness(hits: RatioTest, config: Config, upstream: SpanContext, start: Start, duration: Int64)
    requires config.enableDeferredSample && config.enableSampleError && duration <= SlowLimitNs(config)
    requires StartDecision(hits, SamplerOptionsOf(config), upstream, InputsOf(start)) == RecordOnly
    ensures var w := Run(hits, config, [ServerPre(0, upstream, start), EndElsewhere(0, duration)]);
            0 in w.exported <==> start.garbageCode != Ok
  {
    var events := [ServerPre(0, upstream, start), EndElsewhere(0, duration)];
    var s := NewSpan(hits, config, ServerKind, upstream, start);
    var w := World([s], map[0 := 0], map[], [], [], []);
    assert Step(hits, config, EMPTY, events[0]) == w;
    assert events[..1] == [events[0]] && events[..1][..0] == [];
    assert Run(hits, config, events[..1]) == w;
    assert Run(hits, config, events) == EndSpan(config, w, 0, duration);
    UnsetStatusAtEnd(config, s, s.calls, start.garbageCode, duration) by {
      StartIsTracked(s.born, ServerKind, s.context, upstream, start);
    }
  }

  lemma UnsetStatusAtEnd(config: Config, s: Span, calls: seq<Call>, garbage: StatusCode, duration: Int64)
    requires config.enableDeferredSample && config.enableSampleError && duration <= SlowLimitNs(config)
    requires Final(s).sampled == false && Final(s).code == garbage && s.calls == calls
    ensures Exports(config, s.(calls := calls + [SetDuration(duration)], recording := false)) <==> garbage != Ok
  {
    var ended := s.(calls := calls + [SetDuration(duration)], recording := false);
    EndIsTracked(s, duration);
    assert Final(ended) == Final(s).(duration := duration);
    DeferredDecision(config, Final(ended));
  }
}
