/** The life of spans under the two tracing filters, the tail-sampling wiring and the log sink, as one
    machine over any number of calls (`tracing/client_filter.cc`, `tracing/server_filter.cc`,
    `tracing/common.h`, `tracing/opentelemetry_tracing.cc`, `logging/opentelemetry_logging.cc`).
    This file is the machine; `TracingInvariants` and `DeferralRefinement` hold what is proved of it. */
module TracingFilters {
  import opened TraceTypes
  import opened Sampler
  import opened DeferredSampling

  const TRACE_EXPORTER := "trpc.opentelemetry.trace.grpc_exporter"
  const LOG_EXPORTER := "trpc.opentelemetry.log.grpc_exporter"

  // ---------------------------------------------------------------------------------------------
  // Configuration and wiring
  // ---------------------------------------------------------------------------------------------

  /** What the two `Init`s work with. All fields but the last are options of the user; the last is the
      error option of the deferred processor, which `Wired` sets. */
  datatype Config = Config(
    protocol: string,
    fraction: real,
    disableTraceBody: bool,
    enableDeferredSample: bool,
    deferredSampleError: bool,
    deferredSampleSlowDuration: Int32, // milliseconds
    disableParentSampling: bool,
    logSampler: bool,
    logSamplerError: bool,
    enableSampleError: bool)

  function SamplerOptionsOf(config: Config): Options {
    Options(config.fraction, config.enableDeferredSample, config.disableParentSampling)
  }

  function ProcessorOf(config: Config): ProcessorOptions {
    ProcessorOptions(config.enableSampleError, config.deferredSampleSlowDuration * 1000)
  }

  /** `InitOpenTelemetry` sets the error option from `enable_deferred_sample`, not from
      `deferred_sample_error`. */
  function Wired(config: Config): Config {
    config.(enableSampleError := config.enableDeferredSample)
  }

  /** The flag both filters derive in `Init`. */
  predicate DeferredSampleError(config: Config) {
    config.enableDeferredSample && config.deferredSampleError
  }

  predicate UsesGrpc(config: Config) {
    config.protocol == "grpc"
  }

  // ---------------------------------------------------------------------------------------------
  // State
  // ---------------------------------------------------------------------------------------------

  /** What the filters do to a span. */
  datatype Act = ReportedRequest | ReportedResponse | WroteStatus(code: StatusCode) | EndedByFilter

  /** A span of the SDK. `recording` is false from the start for a dropped span, and after the end for
      any other. `calls` is what its recordable has received; `born` is what the fields of a deferred
      recordable held on construction. */
  datatype Span = Span(
    kind: SpanKind,
    forced: bool,
    parentSampled: bool,
    decision: Decision,
    context: SpanContext,
    recording: bool,
    born: Tracked,
    calls: seq<Call>,
    acts: seq<Act>)

  /** `ClientTracingSpan`: both members are empty until somebody sets them. */
  datatype ClientData = ClientData(span: Option<nat>, parent: Option<nat>)

  datatype LogRecord = LogRecord(level: int, span: nat)

  /** Spans are named by their position. `exported` and `discarded` list the spans whose recordable was
      handed to the inner processor, or destroyed, when they ended. */
  datatype World = World(
    spans: seq<Span>,
    server: map<nat, nat>,
    client: map<nat, ClientData>,
    exported: seq<nat>,
    discarded: seq<nat>,
    logs: seq<LogRecord>)

  const EMPTY := World([], map[], map[], [], [], [])

  /** The last values the deferred recordable tracked. */
  function Final(s: Span): Tracked {
    TrackAll(s.born, s.calls)
  }

  predicate Ended(s: Span) {
    !s.decision.Drop? && !s.recording
  }

  // ---------------------------------------------------------------------------------------------
  // Starting
  // ---------------------------------------------------------------------------------------------

  /** What the surroundings contribute to a new span: the attributes of the user's callback, the ids, and
      whatever the uninitialised members of a new recordable happen to hold. */
  datatype Start = Start(attributes: Attributes, freshTrace: TraceId, freshSpan: SpanId, dyeing: bool,
                         garbageCode: StatusCode, garbageDuration: Int64)

  function InputsOf(start: Start): StartInputs {
    StartInputs(Forced(start.attributes), start.freshTrace, start.freshSpan)
  }

  function AttributeCalls(keys: seq<AttributeKey>): seq<Call> {
    seq(|keys|, i requires 0 <= i < |keys| => SetAttribute(keys[i]))
  }

  function Keys(attributes: Attributes): seq<AttributeKey> {
    seq(|attributes|, i requires 0 <= i < |attributes| => UserKey(attributes[i].0))
  }

  const SERVER_ATTRIBUTES: seq<AttributeKey> := [
    CalleeService, CalleeMethod, CallerService, CallerMethod, HostIp,
    HostPort, PeerIp, PeerPort, Namespace, EnvName]

  const CLIENT_ATTRIBUTES: seq<AttributeKey> := [
    CalleeService, CalleeMethod, CallerService, CallerMethod, HostIp,
    Namespace, EnvName]

  /** The attributes `NewSpan` sets after the SDK has started the span. */
  function FilterAttributes(kind: SpanKind, dyeing: bool): seq<AttributeKey> {
    (if kind == ServerKind then SERVER_ATTRIBUTES else CLIENT_ATTRIBUTES) +
    (if dyeing then [DyeingKey] else [])
  }

  /** What the recordable of a new span receives, from the SDK and then from the filter. */
  function StartCalls(kind: SpanKind, context: SpanContext, parent: SpanContext, start: Start): seq<Call> {
    [SetName, SetInstrumentationScope, SetIdentity(context, parent.spanId)] +
    AttributeCalls(Keys(start.attributes)) +
    [SetSpanKind(kind), SetStartTime, SetResource] +
    AttributeCalls(FilterAttributes(kind, start.dyeing))
  }

  function NewSpan(hits: RatioTest, config: Config, kind: SpanKind, parent: SpanContext, start: Start): Span {
    var options := SamplerOptionsOf(config);
    var decision := StartDecision(hits, options, parent, InputsOf(start));
    var context := StartContext(hits, options, parent, InputsOf(start));
    Span(kind, Forced(start.attributes), parent.sampled, decision, context, !decision.Drop?,
         Tracked(false, start.garbageCode, start.garbageDuration),
         if decision.Drop? then [] else StartCalls(kind, context, parent, start), [])
  }

  // ---------------------------------------------------------------------------------------------
  // Finishing
  // ---------------------------------------------------------------------------------------------

  /** The state of a call when its filter runs for the second time. */
  datatype Outcome = Outcome(ok: bool, protobufRequest: bool, protobufResponse: bool, duration: Int64)

  predicate NeedReportReqRsp(config: Config, s: Span, outcome: Outcome) {
    !config.disableTraceBody && (s.context.sampled || (DeferredSampleError(config) && !outcome.ok))
  }

  function BodyActs(config: Config, s: Span, outcome: Outcome): seq<Act> {
    if !NeedReportReqRsp(config, s, outcome) then []
    else (if outcome.protobufRequest then [ReportedRequest] else []) +
         (if outcome.protobufResponse then [ReportedResponse] else [])
  }

  /** Which event a body becomes depends on the side: the request is sent by a client and received by a
      server. */
  function BodyCall(kind: SpanKind, act: Act): Call {
    AddEvent(if (kind == ClientKind) == (act == ReportedRequest) then Sent else Received)
  }

  function BodyCalls(kind: SpanKind, acts: seq<Act>): seq<Call> {
    seq(|acts|, i requires 0 <= i < |acts| => BodyCall(kind, acts[i]))
  }

  function StatusOf(outcome: Outcome): StatusCode {
    if outcome.ok then Ok else Error
  }

  /** `detail::SetStatus`. */
  function StatusCalls(outcome: Outcome): seq<Call> {
    AttributeCalls(if outcome.ok then [] else [FrameworkRet, FuncRet, ErrMsg]) +
    [SetStatus(StatusOf(outcome))]
  }

  function FinishCalls(config: Config, s: Span, outcome: Outcome): seq<Call> {
    (if s.kind == ClientKind then AttributeCalls([PeerIp, PeerPort]) else []) +
    BodyCalls(s.kind, BodyActs(config, s, outcome)) +
    StatusCalls(outcome)
  }

  function FinishActs(config: Config, s: Span, outcome: Outcome): seq<Act> {
    BodyActs(config, s, outcome) + [WroteStatus(StatusOf(outcome)), EndedByFilter]
  }

  /** Whether the processor hands an ended span on: without deferral there is only the batch processor,
      which takes every recorded span. */
  predicate Exports(config: Config, s: Span) {
    !config.enableDeferredSample || ShouldSampleDeferred(ProcessorOf(config), Final(s))
  }

  function SetSpan(w: World, i: nat, s: Span): World
    requires i < |w.spans|
  {
    w.(spans := w.spans[i := s])
  }

  /** The SDK's `End`: it sets the duration, stops recording and passes the recordable to `OnEnd`, once. */
  function EndSpan(config: Config, w: World, i: nat, duration: Int64): World
    requires i < |w.spans|
  {
    var s := w.spans[i];
    if !s.recording then w
    else
      var ended := s.(calls := s.calls + [SetDuration(duration)], recording := false);
      var w' := SetSpan(w, i, ended);
      if Exports(config, ended) then w'.(exported := w.exported + [i])
      else w'.(discarded := w.discarded + [i])
  }

  function MarkFinished(config: Config, s: Span, outcome: Outcome): Span {
    s.(calls := s.calls + FinishCalls(config, s, outcome), acts := s.acts + FinishActs(config, s, outcome))
  }

  /** `FinishSpan` of either filter, on a span that exists. */
  function FinishSpan(config: Config, w: World, i: nat, outcome: Outcome): World
    requires i < |w.spans|
  {
    if !w.spans[i].recording then w
    else EndSpan(config, SetSpan(w, i, MarkFinished(config, w.spans[i], outcome)), i, outcome.duration)
  }

  // ---------------------------------------------------------------------------------------------
  // Logs
  // ---------------------------------------------------------------------------------------------

  const LEVEL_ERROR := 4 // after trace, debug, info and warn

  predicate ShouldReport(config: Config, level: int, sampled: bool) {
    if config.logSampler then sampled || (config.logSamplerError && level >= LEVEL_ERROR) else true
  }

  // ---------------------------------------------------------------------------------------------
  // Steps
  // ---------------------------------------------------------------------------------------------

  // `hits` is what the ratio decides on trace ids; nothing here depends on how it does.

  /** The filter points of both filters, and what the surroundings do: the framework links a client call
      to the span it runs under, the user calls the span interface, somebody other than a filter ends a
      span, and the server logs. */
  datatype Event =
    | ServerPre(call: nat, upstream: SpanContext, start: Start)
    | ServerPost(call: nat, outcome: Outcome)
    | LinkClient(call: nat, parent: Option<nat>)
    | ClientPre(call: nat, callee: string, start: Start)
    | ClientPost(call: nat, callee: string, outcome: Outcome)
    | UserCall(span: nat, invoked: Call)
    | EndElsewhere(span: nat, duration: Int64)
    | Log(call: nat, level: int)

  /** The part of the interface a `Span` offers to its users. */
  predicate OnUserInterface(c: Call) {
    c.SetAttribute? || c.AddEvent? || c.AddLink? || c.SetStatus? || c.SetName?
  }

  /** The guard against tracing the trace exporter itself. */
  predicate SkipsCall(config: Config, callee: string) {
    UsesGrpc(config) && callee == TRACE_EXPORTER
  }

  /** The filter data of a client call, made empty if absent. */
  function ClientDataOf(w: World, call: nat): ClientData {
    if call in w.client then w.client[call] else ClientData(None, None)
  }

  function ParentContext(w: World, data: ClientData): SpanContext {
    if data.parent.Some? && data.parent.value < |w.spans| then w.spans[data.parent.value].context else INVALID_CONTEXT
  }

  /** What the client filter does at its two points once it is past the guard. */
  function TraceClientPre(hits: RatioTest, config: Config, w: World, call: nat, start: Start): World {
    var data := ClientDataOf(w, call);
    w.(spans := w.spans + [NewSpan(hits, config, ClientKind, ParentContext(w, data), start)],
       client := w.client[call := data.(span := Some(|w.spans|))])
  }

  function TraceClientPost(config: Config, w: World, call: nat, outcome: Outcome): World {
    var data := ClientDataOf(w, call);
    var w' := w.(client := w.client[call := data]);
    if data.span.Some? && data.span.value < |w.spans| then FinishSpan(config, w', data.span.value, outcome) else w'
  }

  function Step(hits: RatioTest, config: Config, w: World, e: Event): World {
    match e
    case ServerPre(call, upstream, start) =>
      w.(spans := w.spans + [NewSpan(hits, config, ServerKind, upstream, start)],
         server := w.server[call := |w.spans|])
    case ServerPost(call, outcome) =>
      if call in w.server && w.server[call] < |w.spans| then FinishSpan(config, w, w.server[call], outcome) else w
    case LinkClient(call, parent) =>
      w.(client := w.client[call := ClientData(None, parent)])
    case ClientPre(call, callee, start) =>
      if SkipsCall(config, callee) then w else TraceClientPre(hits, config, w, call, start)
    case ClientPost(call, callee, outcome) =>
      if SkipsCall(config, callee) then w else TraceClientPost(config, w, call, outcome)
    case UserCall(i, c) =>
      if i < |w.spans| && w.spans[i].recording && OnUserInterface(c)
      then SetSpan(w, i, w.spans[i].(calls := w.spans[i].calls + [c]))
      else w
    case EndElsewhere(i, duration) =>
      if i < |w.spans| then EndSpan(config, w, i, duration) else w
    case Log(call, level) =>
      if call in w.server && w.server[call] < |w.spans| &&
         ShouldReport(config, level, w.spans[w.server[call]].context.sampled)
      then w.(logs := w.logs + [LogRecord(level, w.server[call])])
      else w
  }

  function Run(hits: RatioTest, config: Config, events: seq<Event>): World {
    if events == [] then EMPTY
    else Step(hits, config, Run(hits, config, events[..|events| - 1]), events[|events| - 1])
  }

  // ---------------------------------------------------------------------------------------------
  // The filters and the log sink, updating the state in place
  // ---------------------------------------------------------------------------------------------

  lemma RunOneMore(hits: RatioTest, config: Config, events: seq<Event>, e: Event)
    ensures Run(hits, config, events + [e]) == Step(hits, config, Run(hits, config, events), e)
  {
    assert (events + [e])[..|events|] == events;
  }

  class TracingPlugin {
    const rnd: Rounding
    const config: Config
    var spans: seq<Span>
    var server: map<nat, nat>
    var client: map<nat, ClientData>
    var exported: seq<nat>
    var discarded: seq<nat>
    var logs: seq<LogRecord>

    /** Everything that has happened since the plugin was set up. */
    ghost var events: seq<Event>

    /** The ratio's decision with the threshold computed from the configured fraction. */
    function Hits(): RatioTest {
      RatioTestOf(rnd, NewSampler(rnd, SamplerOptionsOf(config)))
    }

    function State(): World
      reads this
    {
      World(spans, server, client, exported, discarded, logs)
    }

    /** The state is where the machine, wired as the code wires it, gets to by the events so far: what
        holds of every run holds of the plugin. */
    ghost predicate Valid()
      reads this
    {
      config == Wired(config) && State() == Run(Hits(), config, events)
    }

    constructor (rnd: Rounding, config: Config)
      ensures Valid() && events == [] && this.rnd == rnd && this.config == Wired(config)
    {
      this.rnd, this.config := rnd, config.(enableSampleError := config.enableDeferredSample);
      spans, server, client := [], map[], map[];
      exported, discarded, logs := [], [], [];
      events := [];
    }

    ghost method Remember(e: Event)
      modifies this`events
      ensures events == old(events) + [e]
      ensures config == Wired(config) && State() == Step(Hits(), config, Run(Hits(), config, old(events)), e) ==> Valid()
    {
      RunOneMore(Hits(), config, events, e);
      events := events + [e];
    }

    /** The tracer's `StartSpan`, preceded by the parent look-up and followed by the filter's attributes. */
    method StartNewSpan(kind: SpanKind, parent: SpanContext, start: Start) returns (i: nat)
      modifies this`spans
      ensures i == old(|spans|) && spans == old(spans) + [NewSpan(Hits(), config, kind, parent, start)]
    {
      i := |spans|;
      var sampler := NewSampler(rnd, SamplerOptionsOf(config));
      var traceId := if parent.IsValid() then parent.traceId else start.freshTrace;
      var decision := ShouldSample(rnd, sampler, parent, traceId, start.attributes);
      var context := SpanContext(traceId, start.freshSpan, decision.RecordAndSample?, false);
      var born := Tracked(false, start.garbageCode, start.garbageDuration);
      var calls: seq<Call> := [];
      if !decision.Drop? {
        calls := [SetName, SetInstrumentationScope, SetIdentity(context, parent.spanId)];
        calls := calls + AttributeCalls(Keys(start.attributes));
        calls := calls + [SetSpanKind(kind), SetStartTime, SetResource];
        calls := calls + AttributeCalls(FilterAttributes(kind, start.dyeing));
      }
      spans := spans + [Span(kind, Forced(start.attributes), parent.sampled, decision, context, !decision.Drop?,
                             born, calls, [])];
    }

    /** The SDK's `End`, down to the processor. */
    method End(i: nat, duration: Int64)
      requires i < |spans|
      modifies this`spans, this`exported, this`discarded
      ensures State() == EndSpan(config, old(State()), i, duration)
    {
      var s := spans[i];
      if !s.recording {
        return;
      }
      s := s.(calls := s.calls + [SetDuration(duration)], recording := false);
      spans := spans[i := s];
      if Exports(config, s) {
        exported := exported + [i];
      } else {
        discarded := discarded + [i];
      }
    }

    /** `FinishSpan` of both filters. */
    method Finish(i: nat, outcome: Outcome)
      requires i < |spans|
      modifies this`spans, this`exported, this`discarded
      ensures State() == FinishSpan(config, old(State()), i, outcome)
    {
      var s := spans[i];
      if !s.recording {
        return;
      }
      var added: seq<Call> := [];
      if s.kind == ClientKind {
        added := AttributeCalls([PeerIp, PeerPort]);
      }
      var acts: seq<Act> := [];
      if NeedReportReqRsp(config, s, outcome) {
        if outcome.protobufRequest {
          acts := acts + [ReportedRequest];
        }
        if outcome.protobufResponse {
          acts := acts + [ReportedResponse];
        }
      }
      assert acts == BodyActs(config, s, outcome);
      added := added + BodyCalls(s.kind, acts);
      added := added + StatusCalls(outcome);
      acts := acts + [WroteStatus(StatusOf(outcome)), EndedByFilter];
      s := s.(calls := s.calls + added, acts := s.acts + acts);
      assert s == MarkFinished(config, spans[i], outcome);
      spans := spans[i := s];
      End(i, outcome.duration);
    }

    /** The server filter at its two points. */
    method ServerPreRpcInvoke(call: nat, upstream: SpanContext, start: Start)
      modifies this`spans, this`server, this`events
      ensures State() == Step(Hits(), config, old(State()), ServerPre(call, upstream, start))
      ensures events == old(events) + [ServerPre(call, upstream, start)] && (old(Valid()) ==> Valid())
    {
      var i := StartNewSpan(ServerKind, upstream, start);
      server := server[call := i];
      Remember(ServerPre(call, upstream, start));
    }

    method ServerPostRpcInvoke(call: nat, outcome: Outcome)
      modifies this`spans, this`exported, this`discarded, this`events
      ensures State() == Step(Hits(), config, old(State()), ServerPost(call, outcome))
      ensures events == old(events) + [ServerPost(call, outcome)] && (old(Valid()) ==> Valid())
    {
      if call in server && server[call] < |spans| {
        Finish(server[call], outcome);
      }
      Remember(ServerPost(call, outcome));
    }

    /** What the client filter does once it is past the guard: first the filter data, then the span. */
    method TraceCallPre(call: nat, start: Start)
      modifies this`spans, this`client
      ensures State() == TraceClientPre(Hits(), config, old(State()), call, start)
    {
      if call !in client {
        client := client[call := ClientData(None, None)];
      }
      var parent := INVALID_CONTEXT;
      var linked := client[call].parent;
      if linked.Some? && linked.value < |spans| {
        parent := spans[linked.value].context;
      }
      var i := StartNewSpan(ClientKind, parent, start);
      client := client[call := client[call].(span := Some(i))];
    }

    method TraceCallPost(call: nat, outcome: Outcome)
      modifies this`spans, this`client, this`exported, this`discarded
      ensures State() == TraceClientPost(config, old(State()), call, outcome)
    {
      if call !in client {
        client := client[call := ClientData(None, None)];
      }
      assert client == old(client)[call := ClientDataOf(old(State()), call)];
      var span := client[call].span;
      if span.Some? && span.value < |spans| {
        Finish(span.value, outcome);
      }
    }

    /** The client filter at its two points: the guard first. */
    method ClientPreRpcInvoke(call: nat, callee: string, start: Start)
      modifies this`spans, this`client, this`events
      ensures State() == Step(Hits(), config, old(State()), ClientPre(call, callee, start))
      ensures events == old(events) + [ClientPre(call, callee, start)] && (old(Valid()) ==> Valid())
    {
      if !(UsesGrpc(config) && callee == TRACE_EXPORTER) {
        TraceCallPre(call, start);
      }
      Remember(ClientPre(call, callee, start));
    }

    method ClientPostRpcInvoke(call: nat, callee: string, outcome: Outcome)
      modifies this`spans, this`client, this`exported, this`discarded, this`events
      ensures State() == Step(Hits(), config, old(State()), ClientPost(call, callee, outcome))
      ensures events == old(events) + [ClientPost(call, callee, outcome)] && (old(Valid()) ==> Valid())
    {
      if !(UsesGrpc(config) && callee == TRACE_EXPORTER) {
        TraceCallPost(call, outcome);
      }
      Remember(ClientPost(call, callee, outcome));
    }

    /** `OpenTelemetryLogging::Log` for a log line written while serving `call`. */
    method LogLine(call: nat, level: int)
      modifies this`logs, this`events
      ensures State() == Step(Hits(), config, old(State()), Log(call, level))
      ensures events == old(events) + [Log(call, level)] && (old(Valid()) ==> Valid())
    {
      if call in server && server[call] < |spans| {
        var context := spans[server[call]].context;
        var report := true;
        if config.logSampler {
          report := context.sampled || (config.logSamplerError && level >= LEVEL_ERROR);
        }
        if report {
          logs := logs + [LogRecord(level, server[call])];
        }
      }
      Remember(Log(call, level));
    }

    /** What the surroundings do: the framework links a client call to a span, the user calls the span
        interface, somebody other than a filter ends a span. */
    method Link(call: nat, parent: Option<nat>)
      modifies this`client, this`events
      ensures State() == Step(Hits(), config, old(State()), LinkClient(call, parent))
      ensures events == old(events) + [LinkClient(call, parent)] && (old(Valid()) ==> Valid())
    {
      client := client[call := ClientData(None, parent)];
      Remember(LinkClient(call, parent));
    }

    method CallSpan(i: nat, invoked: Call)
      modifies this`spans, this`events
      ensures State() == Step(Hits(), config, old(State()), UserCall(i, invoked))
      ensures events == old(events) + [UserCall(i, invoked)] && (old(Valid()) ==> Valid())
    {
      if i < |spans| && spans[i].recording && OnUserInterface(invoked) {
        spans := spans[i := spans[i].(calls := spans[i].calls + [invoked])];
      }
      Remember(UserCall(i, invoked));
    }

    method LetGo(i: nat, duration: Int64)
      modifies this`spans, this`exported, this`discarded, this`events
      ensures State() == Step(Hits(), config, old(State()), EndElsewhere(i, duration))
      ensures events == old(events) + [EndElsewhere(i, duration)] && (old(Valid()) ==> Valid())
    {
      if i < |spans| {
        End(i, duration);
      }
      Remember(EndElsewhere(i, duration));
    }
  }
}
