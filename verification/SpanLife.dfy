/** The life of one span under the filters, step by step, in the terms of the configuration and of the call:
    what it starts with, what it continues, and what its finish adds. */
module SpanLife {
  import opened TraceTypes
  import opened Sampler
  import opened DeferredSampling
  import opened TracingFilters
  import opened TracingInvariants
  import opened InterleavedFinish

  // ---------------------------------------------------------------------------------------------
  // Starting
  // ---------------------------------------------------------------------------------------------

  predicate ForcedBy(attributes: Attributes) {
    exists k :: 0 <= k < |attributes| && attributes[k].0 == "trpc-force-sample"
  }

  /** The attributes of a new span, beside those of the user's callback. */
  function StartKeys(kind: SpanKind, dyeing: bool): set<AttributeKey> {
    {CalleeService, CalleeMethod, CallerService, CallerMethod, HostIp, Namespace, EnvName}
    + (if kind == ServerKind then {HostPort, PeerIp, PeerPort} else {})
    + (if dyeing then {DyeingKey} else {})
  }

  predicate UserSupplied(attributes: Attributes, key: AttributeKey) {
    exists k :: 0 <= k < |attributes| && key == UserKey(attributes[k].0)
  }

  /** Everything about a span that has just started under the given parent. */
  ghost predicate StartedAs(hits: RatioTest, config: Config, s: Span, kind: SpanKind, parent: SpanContext, start: Start) {
    && s.kind == kind && s.acts == [] && s.born == Tracked(false, start.garbageCode, start.garbageDuration)
    && s.context.traceId == (if parent.IsValid() then parent.traceId else start.freshTrace)
    && s.context.spanId == start.freshSpan && !s.context.remote
    && (s.context.sampled
        <==> || ForcedBy(start.attributes)
             || (parent.sampled && !config.disableParentSampling)
             || hits(s.context.traceId))
    && (s.recording <==> s.context.sampled || config.enableDeferredSample)
    && (!s.recording ==> s.calls == [])
    && (s.recording ==> forall c: Call :: c in s.calls <==> StartsWith(c, kind, s.context, parent, start))
  }

  /** The calls a recorded span starts with. */
  predicate StartsWith(c: Call, kind: SpanKind, context: SpanContext, parent: SpanContext, start: Start) {
    || c == SetIdentity(context, parent.spanId)
    || c == SetSpanKind(kind)
    || c.SetName? || c.SetResource? || c.SetStartTime? || c.SetInstrumentationScope?
    || (c.SetAttribute? && (c.key in StartKeys(kind, start.dyeing) || UserSupplied(start.attributes, c.key)))
  }

  lemma NewSpanStartsAs(hits: RatioTest, config: Config, kind: SpanKind, parent: SpanContext, start: Start)
    ensures StartedAs(hits, config, NewSpan(hits, config, kind, parent, start), kind, parent, start)
  {
    var s := NewSpan(hits, config, kind, parent, start);
    if s.recording {
      StartMembers(kind, s.context, parent, start);
    }
  }

  lemma StartMembers(kind: SpanKind, context: SpanContext, parent: SpanContext, start: Start)
    ensures forall c: Call ::
              c in StartCalls(kind, context, parent, start) <==> StartsWith(c, kind, context, parent, start)
  {
    AttributesIn(Keys(start.attributes));
    AttributesIn(FilterAttributes(kind, start.dyeing));
    KeysIn(start.attributes);
    FilterKeysIn(kind, start.dyeing);
  }

  lemma KeysIn(attributes: Attributes)
    ensures forall key :: key in Keys(attributes) <==> UserSupplied(attributes, key)
  {
    forall key | UserSupplied(attributes, key) ensures key in Keys(attributes) {
      var k :| 0 <= k < |attributes| && key == UserKey(attributes[k].0);
      assert Keys(attributes)[k] == key;
    }
  }

  lemma FilterKeysIn(kind: SpanKind, dyeing: bool)
    ensures forall key :: key in FilterAttributes(kind, dyeing) <==> key in StartKeys(kind, dyeing)
  {
  }

  // ---------------------------------------------------------------------------------------------
  // Finishing
  // ---------------------------------------------------------------------------------------------

  /** Whether the configuration and the call ask for bodies on the span. */
  predicate WantsBodies(config: Config, s: Span, outcome: Outcome) {
    && !config.disableTraceBody
    && (s.context.sampled || (config.enableDeferredSample && config.deferredSampleError && !outcome.ok))
  }

  /** The event a request, or a response, becomes. */
  function RequestEvent(kind: SpanKind): Call {
    AddEvent(if kind == ClientKind then Sent else Received)
  }

  function ResponseEvent(kind: SpanKind): Call {
    AddEvent(if kind == ClientKind then Received else Sent)
  }

  /** What a finish adds before the status: each body exactly if wanted and serialised, once, the request
      first; the peer on a client span; the error attributes with an error; nothing else. */
  ghost predicate AddedAs(config: Config, s: Span, added: seq<Call>, outcome: Outcome) {
    var request, response := RequestEvent(s.kind), ResponseEvent(s.kind);
    && (request in added <==> WantsBodies(config, s, outcome) && outcome.protobufRequest)
    && (response in added <==> WantsBodies(config, s, outcome) && outcome.protobufResponse)
    && (forall j, k :: 0 <= j < k < |added| && added[j].AddEvent? && added[k].AddEvent?
                       ==> added[j] == request && added[k] == response)
    && (forall c :: c in added ==> c == request || c == response || c.SetAttribute?)
    && (forall key :: SetAttribute(key) in added
          <==> || (s.kind == ClientKind && (key == PeerIp || key == PeerPort))
               || (!outcome.ok && (key == FrameworkRet || key == FuncRet || key == ErrMsg)))
  }

  /** What the filter records of a finish. */
  function WantedActs(config: Config, s: Span, outcome: Outcome): seq<Act> {
    (if WantsBodies(config, s, outcome) && outcome.protobufRequest then [ReportedRequest] else [])
    + (if WantsBodies(config, s, outcome) && outcome.protobufResponse then [ReportedResponse] else [])
    + [WroteStatus(if outcome.ok then Ok else Error), EndedByFilter]
  }

  /** Everything a finish does to a recording span: it adds calls, then the status, then the duration, and the
      span has ended. */
  ghost predicate FinishedAs(config: Config, s: Span, s': Span, outcome: Outcome) {
    var n, n' := |s.calls|, |s'.calls|;
    && !s'.recording && s'.context == s.context && s'.acts == s.acts + WantedActs(config, s, outcome)
    && n' >= n + 2 && s'.calls[..n] == s.calls
    && AddedAs(config, s, s'.calls[n..n' - 2], outcome)
    && s'.calls[n' - 2] == SetStatus(if outcome.ok then Ok else Error)
    && s'.calls[n' - 1] == SetDuration(outcome.duration)
  }

  lemma FinishFinishesAs(config: Config, w: World, i: nat, outcome: Outcome)
    requires i < |w.spans| && w.spans[i].recording
    ensures FinishedAs(config, w.spans[i], FinishSpan(config, w, i, outcome).spans[i], outcome)
  {
    var s, s' := w.spans[i], FinishSpan(config, w, i, outcome).spans[i];
    var added := AttributeCalls(PeerKeys(s)) + BodyCalls(s.kind, BodyActs(config, s, outcome))
                 + AttributeCalls(ErrorKeys(outcome));
    CallsAreAdded(config, s, outcome, added);
    FinishMarksAndEnds(config, w, i, outcome);
    FinishCallsAre(config, s, outcome);
    ActsAreAdded(config, s, outcome);
    assert s'.calls == s.calls + added + [SetStatus(StatusOf(outcome)), SetDuration(outcome.duration)];
    assert s'.calls[|s.calls|..|s'.calls| - 2] == added;
  }

  lemma FinishMarksAndEnds(config: Config, w: World, i: nat, outcome: Outcome)
    requires i < |w.spans| && w.spans[i].recording
    ensures var s := w.spans[i];
            FinishSpan(config, w, i, outcome).spans[i] ==
            s.(calls := s.calls + FinishCalls(config, s, outcome) + [SetDuration(outcome.duration)],
               acts := s.acts + FinishActs(config, s, outcome), recording := false)
  {
  }

  lemma FinishCallsAre(config: Config, s: Span, outcome: Outcome)
    ensures FinishCalls(config, s, outcome) ==
            AttributeCalls(PeerKeys(s)) + BodyCalls(s.kind, BodyActs(config, s, outcome))
            + AttributeCalls(ErrorKeys(outcome)) + [SetStatus(StatusOf(outcome))]
  {
    assert AttributeCalls([]) == [];
  }

  lemma ActsAreAdded(config: Config, s: Span, outcome: Outcome)
    ensures FinishActs(config, s, outcome) == WantedActs(config, s, outcome)
  {
  }

  lemma CallsAreAdded(config: Config, s: Span, outcome: Outcome, added: seq<Call>)
    requires added == AttributeCalls(PeerKeys(s)) + BodyCalls(s.kind, BodyActs(config, s, outcome))
                      + AttributeCalls(ErrorKeys(outcome))
    ensures AddedAs(config, s, added, outcome)
  {
    AttributesIn(PeerKeys(s));
    AttributesIn(ErrorKeys(outcome));
    BodiesAsWanted(config, s, outcome);
  }

  lemma BodiesAsWanted(config: Config, s: Span, outcome: Outcome)
    ensures BodyCalls(s.kind, BodyActs(config, s, outcome)) ==
            (if WantsBodies(config, s, outcome) && outcome.protobufRequest then [RequestEvent(s.kind)] else [])
            + (if WantsBodies(config, s, outcome) && outcome.protobufResponse then [ResponseEvent(s.kind)] else [])
  {
  }

  // ---------------------------------------------------------------------------------------------
  // A call of the server filter, from any state, with anything in between
  // ---------------------------------------------------------------------------------------------

  /** One more span, and nothing else about spans, exports and logs. */
  ghost predicate AddsSpan(w: World, w': World) {
    && |w'.spans| == |w.spans| + 1 && w'.spans[..|w.spans|] == w.spans
    && w'.exported == w.exported && w'.discarded == w.discarded && w'.logs == w.logs
  }

  /** A span is finished if it was recording, and left alone if not; no other span is touched. */
  ghost predicate FinishesSpan(config: Config, w: World, w': World, i: nat, outcome: Outcome) {
    && i < |w.spans| && |w'.spans| == |w.spans| && w'.logs == w.logs
    && (forall k :: 0 <= k < |w.spans| && k != i ==> w'.spans[k] == w.spans[k])
    && (if w.spans[i].recording then FinishedAs(config, w.spans[i], w'.spans[i], outcome) else w'.spans[i] == w.spans[i])
  }

  lemma FinishFinishesSpan(config: Config, w: World, i: nat, outcome: Outcome)
    requires i < |w.spans|
    ensures FinishesSpan(config, w, FinishSpan(config, w, i, outcome), i, outcome)
  {
    if w.spans[i].recording {
      FinishFinishesAs(config, w, i, outcome);
    }
  }

  /** The server filter starts a span under what it extracted, and remembers it under the call. */
  lemma ServerCallStarts(hits: RatioTest, config: Config, w: World, call: nat, upstream: SpanContext, start: Start)
    ensures var w' := Step(hits, config, w, ServerPre(call, upstream, start));
            && AddsSpan(w, w') && StartedAs(hits, config, w'.spans[|w.spans|], ServerKind, upstream, start)
            && call in w'.server && w'.server[call] == |w.spans|
  {
    NewSpanStartsAs(hits, config, ServerKind, upstream, start);
  }

  lemma {:induction false} ServerCallIsKept(hits: RatioTest, config: Config, w: World, events: seq<Event>, call: nat)
    requires call in w.server && w.server[call] < |w.spans|
    requires forall k :: 0 <= k < |events| && events[k].ServerPre? ==> events[k].call != call
    ensures var w' := RunFrom(hits, config, w, events);
            && |w.spans| <= |w'.spans| && call in w'.server && w'.server[call] == w.server[call]
            && w'.spans[w.server[call]].context == w.spans[w.server[call]].context
    decreases |events|
  {
    if events != [] {
      StepEffect(hits, config, w, events[0], w.server[call]);
      ServerMapAfter(hits, config, w, events[0]);
      ServerCallIsKept(hits, config, Step(hits, config, w, events[0]), events[1..], call);
    }
  }

  lemma ServerMapAfter(hits: RatioTest, config: Config, w: World, e: Event)
    ensures var w' := Step(hits, config, w, e);
            && |w.spans| <= |w'.spans|
            && w'.server == if e.ServerPre? then w.server[e.call := |w.spans|] else w.server
  {
  }

  /** And finishes that same span, with the outcome of the call, whatever happened meanwhile to anything but
      what the call remembers. */
  lemma ServerCallFinishes(hits: RatioTest, config: Config, w: World, between: seq<Event>, call: nat, outcome: Outcome)
    requires call in w.server && w.server[call] < |w.spans|
    requires forall k :: 0 <= k < |between| && between[k].ServerPre? ==> between[k].call != call
    ensures var now := RunFrom(hits, config, w, between);
            FinishesSpan(config, now, Step(hits, config, now, ServerPost(call, outcome)), w.server[call], outcome)
  {
    ServerCallIsKept(hits, config, w, between, call);
    FinishFinishesSpan(config, RunFrom(hits, config, w, between), w.server[call], outcome);
  }

  // ---------------------------------------------------------------------------------------------
  // A call of the client filter
  // ---------------------------------------------------------------------------------------------

  /** Over gRPC the trace exporter's own calls pass the filter untouched. */
  predicate PassesBy(config: Config, callee: string) {
    config.protocol == "grpc" && callee == "trpc.opentelemetry.trace.grpc_exporter"
  }

  lemma PassedByUntouched(hits: RatioTest, config: Config, w: World, call: nat, callee: string, start: Start,
                          outcome: Outcome)
    requires PassesBy(config, callee)
    ensures Step(hits, config, w, ClientPre(call, callee, start)) == w
    ensures Step(hits, config, w, ClientPost(call, callee, outcome)) == w
  {
  }

  /** The parent a client call has been linked to is still its parent, in the same context. */
  ghost predicate LinkedTo(w: World, call: nat, context: SpanContext) {
    && call in w.client && w.client[call].parent.Some?
    && w.client[call].parent.value < |w.spans| && w.spans[w.client[call].parent.value].context == context
  }

  lemma ClientMapAfter(hits: RatioTest, config: Config, w: World, e: Event, call: nat)
    requires call in w.client && !(e.LinkClient? && e.call == call)
    ensures var w' := Step(hits, config, w, e);
            && call in w'.client && w'.client[call].parent == w.client[call].parent
            && (!(e.ClientPre? && e.call == call) ==> w'.client[call].span == w.client[call].span)
  {
  }

  lemma {:induction false} LinkIsKept(hits: RatioTest, config: Config, w: World, events: seq<Event>, call: nat,
                                      context: SpanContext)
    requires LinkedTo(w, call, context)
    requires forall k :: 0 <= k < |events| && events[k].LinkClient? ==> events[k].call != call
    ensures LinkedTo(RunFrom(hits, config, w, events), call, context)
    decreases |events|
  {
    if events != [] {
      StepEffect(hits, config, w, events[0], w.client[call].parent.value);
      ClientMapAfter(hits, config, w, events[0], call);
      LinkIsKept(hits, config, Step(hits, config, w, events[0]), events[1..], call, context);
    }
  }

  /** A client call that has been linked to a span continues that span's trace, whatever happened since: its
      own span has the parent's trace id if the parent's context is valid, and inherits its flag unless
      parent sampling is off. */
  lemma LinkedCallContinuesTrace(hits: RatioTest, config: Config, w: World, i: nat, between: seq<Event>, call: nat,
                                 callee: string, start: Start)
    requires i < |w.spans| && !PassesBy(config, callee)
    requires forall k :: 0 <= k < |between| && between[k].LinkClient? ==> between[k].call != call
    ensures var now := RunFrom(hits, config, w, [LinkClient(call, Some(i))] + between);
            var w' := Step(hits, config, now, ClientPre(call, callee, start));
            && AddsSpan(now, w')
            && StartedAs(hits, config, w'.spans[|now.spans|], ClientKind, w.spans[i].context, start)
            && call in w'.client && w'.client[call].span == Some(|now.spans|)
  {
    var link := [LinkClient(call, Some(i))];
    RunConcat(hits, config, w, link, between);
    assert link[1..] == [];
    LinkIsKept(hits, config, Step(hits, config, w, link[0]), between, call, w.spans[i].context);
    LinkedCallStarts(hits, config, RunFrom(hits, config, w, link + between), call, callee, start, w.spans[i].context);
  }

  lemma LinkedCallStarts(hits: RatioTest, config: Config, w: World, call: nat, callee: string, start: Start,
                         context: SpanContext)
    requires LinkedTo(w, call, context) && !PassesBy(config, callee)
    ensures var w' := Step(hits, config, w, ClientPre(call, callee, start));
            && AddsSpan(w, w') && StartedAs(hits, config, w'.spans[|w.spans|], ClientKind, context, start)
            && call in w'.client && w'.client[call].span == Some(|w.spans|)
  {
    assert ParentContext(w, ClientDataOf(w, call)) == context;
    ClientCallAdds(hits, config, w, call, callee, start);
    NewSpanStartsAs(hits, config, ClientKind, context, start);
  }

  lemma ClientCallAdds(hits: RatioTest, config: Config, w: World, call: nat, callee: string, start: Start)
    requires !PassesBy(config, callee)
    ensures var w' := Step(hits, config, w, ClientPre(call, callee, start));
            && AddsSpan(w, w')
            && w'.spans[|w.spans|] == NewSpan(hits, config, ClientKind, ParentContext(w, ClientDataOf(w, call)), start)
            && call in w'.client && w'.client[call].span == Some(|w.spans|)
  {
  }

  /** A client call that has not been linked to any span starts a trace of its own. */
  lemma UnlinkedCallStartsTrace(hits: RatioTest, config: Config, w: World, call: nat, callee: string, start: Start)
    requires !PassesBy(config, callee) && (call in w.client ==> w.client[call].parent.None?)
    ensures var w' := Step(hits, config, w, ClientPre(call, callee, start));
            && AddsSpan(w, w') && StartedAs(hits, config, w'.spans[|w.spans|], ClientKind, INVALID_CONTEXT, start)
            && w'.spans[|w.spans|].context.traceId == start.freshTrace
            && call in w'.client && w'.client[call].span == Some(|w.spans|)
  {
    ClientCallAdds(hits, config, w, call, callee, start);
    NewSpanStartsAs(hits, config, ClientKind, INVALID_CONTEXT, start);
  }

  lemma {:induction false} ClientCallIsKept(hits: RatioTest, config: Config, w: World, events: seq<Event>, call: nat,
                                            i: nat)
    requires call in w.client && w.client[call].span == Some(i) && i < |w.spans|
    requires forall k :: 0 <= k < |events| && (events[k].LinkClient? || events[k].ClientPre?) ==> events[k].call != call
    ensures var w' := RunFrom(hits, config, w, events);
            i < |w'.spans| && call in w'.client && w'.client[call].span == Some(i)
    decreases |events|
  {
    if events != [] {
      StepEffect(hits, config, w, events[0], i);
      ClientMapAfter(hits, config, w, events[0], call);
      ClientCallIsKept(hits, config, Step(hits, config, w, events[0]), events[1..], call, i);
    }
  }

  /** The span a client call started is the one its second filter point finishes. */
  lemma ClientCallFinishes(hits: RatioTest, config: Config, w: World, between: seq<Event>, call: nat, i: nat,
                           callee: string, outcome: Outcome)
    requires call in w.client && w.client[call].span == Some(i) && i < |w.spans| && !PassesBy(config, callee)
    requires forall k :: 0 <= k < |between| && (between[k].LinkClient? || between[k].ClientPre?) ==> between[k].call != call
    ensures var now := RunFrom(hits, config, w, between);
            FinishesSpan(config, now, Step(hits, config, now, ClientPost(call, callee, outcome)), i, outcome)
  {
    ClientCallIsKept(hits, config, w, between, call, i);
    var now := RunFrom(hits, config, w, between);
    var w' := now.(client := now.client[call := now.client[call]]);
    FinishFinishesSpan(config, w', i, outcome);
  }

  // ---------------------------------------------------------------------------------------------
  // Everybody else
  // ---------------------------------------------------------------------------------------------

  /** A log line is reported, with the span of the call it was written in, exactly if there is such a span and
      log sampling is off, or the span is sampled, or the line is an error and unsampled errors are wanted. */
  lemma LineIsReportedIff(hits: RatioTest, config: Config, w: World, call: nat, level: int)
    ensures var w' := Step(hits, config, w, Log(call, level));
            w'.(logs := w.logs) == w
            && w'.logs == w.logs +
               (if call in w.server && w.server[call] < |w.spans|
                   && (!config.logSampler || w.spans[w.server[call]].context.sampled
                       || (config.logSamplerError && level >= 4))
                then [LogRecord(level, w.server[call])] else [])
  {
  }

  /** A user reaches a span while it records, with the five calls of its interface, and no further. */
  lemma UserReachesIff(hits: RatioTest, config: Config, w: World, i: nat, c: Call)
    ensures var w' := Step(hits, config, w, UserCall(i, c));
            if i < |w.spans| && w.spans[i].recording
               && (c.SetAttribute? || c.AddEvent? || c.AddLink? || c.SetStatus? || c.SetName?)
            then w'.(spans := w.spans) == w && w'.spans == w.spans[i := w.spans[i].(calls := w.spans[i].calls + [c])]
            else w' == w
  {
  }
}
