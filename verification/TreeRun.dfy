/** A whole trace, run through the machines of the services it visits: the contexts the machines give its spans
    are those of the call tree, so what is proved of call trees is true of the filters. */
module TreeRun {
  import opened TraceTypes
  import opened Sampler
  import opened TracingFilters
  import opened TracingInvariants
  import opened InterleavedFinish
  import opened SpanLife
  import opened CallTree

  /** One call as one side sees it, and the calls made under it: which service handles it, under which number
      of the framework, and with which outcome. */
  datatype Visit = Visit(service: nat, call: nat, callee: string, kind: SpanKind, start: Start, outcome: Outcome,
                         children: seq<Visit>)

  type Configs = nat -> Config

  /** The machines of all services; one that has not been visited is empty. */
  type Fleet = map<nat, World>

  function WorldOf(fleet: Fleet, service: nat): World {
    if service in fleet then fleet[service] else EMPTY
  }

  function HitsOf(rnd: Rounding, config: Config): RatioTest {
    RatioTestOf(rnd, NewSampler(rnd, SamplerOptionsOf(config)))
  }

  /** The same calls as a call tree. */
  function TreeOf(rnd: Rounding, configs: Configs, v: Visit): Tree
    decreases v, 1
  {
    Node(NewSampler(rnd, SamplerOptionsOf(configs(v.service))), InputsOf(v.start), v.kind,
         TreesOf(rnd, configs, v.children))
  }

  function TreesOf(rnd: Rounding, configs: Configs, vs: seq<Visit>): seq<Tree>
    decreases vs, 0
  {
    if vs == [] then [] else [TreeOf(rnd, configs, vs[0])] + TreesOf(rnd, configs, vs[1..])
  }

  // ---------------------------------------------------------------------------------------------
  // Running it
  // ---------------------------------------------------------------------------------------------

  /** What the machine of the service sees before the calls under this one: a server call arrives with the
      parent's context, which has travelled; a client call is linked to the parent's span. */
  function Arrival(v: Visit, parent: SpanContext, at: Option<nat>): seq<Event> {
    match v.kind
    case ServerKind => [ServerPre(v.call, parent.(remote := true), v.start)]
    case ClientKind => [LinkClient(v.call, at), ClientPre(v.call, v.callee, v.start)]
  }

  function Departure(v: Visit): Event {
    match v.kind
    case ServerKind => ServerPost(v.call, v.outcome)
    case ClientKind => ClientPost(v.call, v.callee, v.outcome)
  }

  function ContextOf(w: World, i: nat): SpanContext {
    if i < |w.spans| then w.spans[i].context else INVALID_CONTEXT
  }

  /** The fleet after the call and everything under it, and the contexts its spans got, parents first. */
  function RunVisit(rnd: Rounding, configs: Configs, fleet: Fleet, v: Visit, parent: SpanContext, at: Option<nat>)
    : (Fleet, seq<SpanContext>)
    decreases v, 1
  {
    var hits, config := HitsOf(rnd, configs(v.service)), configs(v.service);
    var i := |WorldOf(fleet, v.service).spans|;
    var arrived := RunFrom(hits, config, WorldOf(fleet, v.service), Arrival(v, parent, at));
    var context := ContextOf(arrived, i);
    var below := RunVisits(rnd, configs, fleet[v.service := arrived], v.children, context, Some(i));
    var left := Step(hits, config, WorldOf(below.0, v.service), Departure(v));
    (below.0[v.service := left], [context] + below.1)
  }

  function RunVisits(rnd: Rounding, configs: Configs, fleet: Fleet, vs: seq<Visit>, parent: SpanContext, at: Option<nat>)
    : (Fleet, seq<SpanContext>)
    decreases vs, 0
  {
    if vs == [] then (fleet, [])
    else
      var first := RunVisit(rnd, configs, fleet, vs[0], parent, at);
      var rest := RunVisits(rnd, configs, first.0, vs[1..], parent, at);
      (rest.0, first.1 + rest.1)
  }

  /** A client call is made in the service of the call it is made under, and none is the trace exporter's. */
  predicate Placed(configs: Configs, v: Visit, service: nat)
    decreases v, 1
  {
    && (v.kind == ClientKind ==> v.service == service && !PassesBy(configs(v.service), v.callee))
    && AllPlaced(configs, v.children, v.service)
  }

  predicate AllPlaced(configs: Configs, vs: seq<Visit>, service: nat)
    decreases vs, 0
  {
    vs != [] ==> Placed(configs, vs[0], service) && AllPlaced(configs, vs[1..], service)
  }

  // ---------------------------------------------------------------------------------------------
  // It gives the contexts of the tree
  // ---------------------------------------------------------------------------------------------

  /** The same spans and perhaps more, in their contexts. */
  ghost predicate KeepsContexts(w: World, w': World) {
    |w.spans| <= |w'.spans| && forall i :: 0 <= i < |w.spans| ==> w'.spans[i].context == w.spans[i].context
  }

  ghost predicate Extends(fleet: Fleet, fleet': Fleet) {
    forall k: nat :: KeepsContexts(WorldOf(fleet, k), WorldOf(fleet', k))
  }

  lemma StepKeepsContexts(hits: RatioTest, config: Config, w: World, e: Event)
    ensures KeepsContexts(w, Step(hits, config, w, e))
  {
    ServerMapAfter(hits, config, w, e);
    forall i | 0 <= i < |w.spans| ensures Step(hits, config, w, e).spans[i].context == w.spans[i].context {
      StepEffect(hits, config, w, e, i);
    }
  }

  lemma {:induction false} RunFromKeepsContexts(hits: RatioTest, config: Config, w: World, events: seq<Event>)
    ensures KeepsContexts(w, RunFrom(hits, config, w, events))
    decreases |events|
  {
    if events != [] {
      StepKeepsContexts(hits, config, w, events[0]);
      RunFromKeepsContexts(hits, config, Step(hits, config, w, events[0]), events[1..]);
    }
  }

  lemma ReplaceExtends(fleet: Fleet, service: nat, w: World)
    requires KeepsContexts(WorldOf(fleet, service), w)
    ensures Extends(fleet, fleet[service := w])
  {
  }

  lemma ExtendsTwice(a: Fleet, b: Fleet, c: Fleet)
    requires Extends(a, b) && Extends(b, c)
    ensures Extends(a, c)
  {
    forall k: nat ensures KeepsContexts(WorldOf(a, k), WorldOf(c, k)) {
      assert KeepsContexts(WorldOf(a, k), WorldOf(b, k)) && KeepsContexts(WorldOf(b, k), WorldOf(c, k));
    }
  }

  /** The span a client call will be linked to is in the parent's context; without a parent, that is the
      invalid one. */
  ghost predicate Attached(fleet: Fleet, service: nat, parent: SpanContext, at: Option<nat>) {
    match at
    case Some(i) => i < |WorldOf(fleet, service).spans| && WorldOf(fleet, service).spans[i].context == parent
    case None => parent == INVALID_CONTEXT
  }

  lemma AttachedStays(fleet: Fleet, fleet': Fleet, service: nat, parent: SpanContext, at: Option<nat>)
    requires Attached(fleet, service, parent, at) && Extends(fleet, fleet')
    ensures Attached(fleet', service, parent, at)
  {
    assert KeepsContexts(WorldOf(fleet, service), WorldOf(fleet', service));
  }

  /** A span that started as the filters start spans has the context of its node in the tree. */
  lemma StartedInContext(rnd: Rounding, config: Config, s: Span, kind: SpanKind, parent: SpanContext, start: Start,
                         t: Tree, above: SpanContext)
    requires StartedAs(HitsOf(rnd, config), config, s, kind, parent, start) && parent == Transmit(above, kind)
    requires t.sampler == NewSampler(rnd, SamplerOptionsOf(config)) && t.inputs == InputsOf(start) && t.kind == kind
    ensures s.context == RootContext(rnd, t, above)
  {
  }

  /** One more span, in the given context. */
  ghost predicate AddsContext(w: World, w': World, context: SpanContext) {
    |w'.spans| == |w.spans| + 1 && KeepsContexts(w, w') && w'.spans[|w.spans|].context == context
  }

  lemma ServerArrival(rnd: Rounding, config: Config, w: World, v: Visit, parent: SpanContext, at: Option<nat>, t: Tree)
    requires v.kind == ServerKind
    requires t.sampler == NewSampler(rnd, SamplerOptionsOf(config)) && t.inputs == InputsOf(v.start) && t.kind == v.kind
    ensures AddsContext(w, RunFrom(HitsOf(rnd, config), config, w, Arrival(v, parent, at)), RootContext(rnd, t, parent))
  {
    var hits, events := HitsOf(rnd, config), Arrival(v, parent, at);
    assert events[1..] == [];
    ServerCallStarts(hits, config, w, v.call, parent.(remote := true), v.start);
    var w' := Step(hits, config, w, events[0]);
    StepKeepsContexts(hits, config, w, events[0]);
    StartedInContext(rnd, config, w'.spans[|w.spans|], ServerKind, parent.(remote := true), v.start, t, parent);
  }

  lemma ClientArrival(rnd: Rounding, config: Config, w: World, v: Visit, parent: SpanContext, at: Option<nat>, t: Tree)
    requires v.kind == ClientKind && !PassesBy(config, v.callee)
    requires match at case Some(i) => i < |w.spans| && w.spans[i].context == parent case None => parent == INVALID_CONTEXT
    requires t.sampler == NewSampler(rnd, SamplerOptionsOf(config)) && t.inputs == InputsOf(v.start) && t.kind == v.kind
    ensures AddsContext(w, RunFrom(HitsOf(rnd, config), config, w, Arrival(v, parent, at)), RootContext(rnd, t, parent))
  {
    var hits, events := HitsOf(rnd, config), Arrival(v, parent, at);
    assert events[1..] == [events[1]] && [events[1]][1..] == [];
    var linked := Step(hits, config, w, events[0]);
    var w' := Step(hits, config, linked, events[1]);
    assert RunFrom(hits, config, linked, [events[1]]) == w';
    RunFromKeepsContexts(hits, config, w, events);
    ClientStarts(hits, config, linked, v, parent, at);
    StartedInContext(rnd, config, w'.spans[|w.spans|], ClientKind, parent, v.start, t, parent);
  }

  lemma ClientStarts(hits: RatioTest, config: Config, linked: World, v: Visit, parent: SpanContext, at: Option<nat>)
    requires !PassesBy(config, v.callee) && v.call in linked.client && linked.client[v.call].parent == at
    requires match at
             case Some(i) => i < |linked.spans| && linked.spans[i].context == parent
             case None => parent == INVALID_CONTEXT
    ensures var w' := Step(hits, config, linked, ClientPre(v.call, v.callee, v.start));
            && AddsSpan(linked, w')
            && StartedAs(hits, config, w'.spans[|linked.spans|], ClientKind, parent, v.start)
  {
    if at.Some? {
      LinkedCallStarts(hits, config, linked, v.call, v.callee, v.start, parent);
    } else {
      UnlinkedCallStartsTrace(hits, config, linked, v.call, v.callee, v.start);
    }
  }

  lemma ArrivalStarts(rnd: Rounding, configs: Configs, fleet: Fleet, v: Visit, parent: SpanContext, at: Option<nat>,
                      service: nat)
    requires Placed(configs, v, service)
    requires v.kind == ClientKind ==> Attached(fleet, service, parent, at)
    ensures var w := WorldOf(fleet, v.service);
            var arrived := RunFrom(HitsOf(rnd, configs(v.service)), configs(v.service), w, Arrival(v, parent, at));
            AddsContext(w, arrived, RootContext(rnd, TreeOf(rnd, configs, v), parent))
  {
    var config, w, t := configs(v.service), WorldOf(fleet, v.service), TreeOf(rnd, configs, v);
    match v.kind
    case ServerKind => ServerArrival(rnd, config, w, v, parent, at, t);
    case ClientKind => ClientArrival(rnd, config, w, v, parent, at, t);
  }

  /** Run through the machines of its services, a trace gets the contexts of its call tree; and every span
      there was keeps its own. */
  lemma {:induction false} VisitGivesSpans(rnd: Rounding, configs: Configs, fleet: Fleet, v: Visit, parent: SpanContext,
                                           at: Option<nat>, service: nat)
    requires Placed(configs, v, service)
    requires v.kind == ClientKind ==> Attached(fleet, service, parent, at)
    ensures RunVisit(rnd, configs, fleet, v, parent, at).1 == Spans(rnd, TreeOf(rnd, configs, v), parent)
    ensures Extends(fleet, RunVisit(rnd, configs, fleet, v, parent, at).0)
    decreases v, 1
  {
    var hits, config, w := HitsOf(rnd, configs(v.service)), configs(v.service), WorldOf(fleet, v.service);
    var arrived := RunFrom(hits, config, w, Arrival(v, parent, at));
    ArrivalStarts(rnd, configs, fleet, v, parent, at, service);
    var context := ContextOf(arrived, |w.spans|);
    var fleet' := fleet[v.service := arrived];
    ReplaceExtends(fleet, v.service, arrived);
    VisitsGiveSpans(rnd, configs, fleet', v.children, context, Some(|w.spans|), v.service);
    var below := RunVisits(rnd, configs, fleet', v.children, context, Some(|w.spans|));
    StepKeepsContexts(hits, config, WorldOf(below.0, v.service), Departure(v));
    var left := Step(hits, config, WorldOf(below.0, v.service), Departure(v));
    ReplaceExtends(below.0, v.service, left);
    ExtendsTwice(fleet, fleet', below.0);
    ExtendsTwice(fleet, below.0, below.0[v.service := left]);
  }

  lemma {:induction false} VisitsGiveSpans(rnd: Rounding, configs: Configs, fleet: Fleet, vs: seq<Visit>,
                                           parent: SpanContext, at: Option<nat>, service: nat)
    requires AllPlaced(configs, vs, service) && Attached(fleet, service, parent, at)
    ensures RunVisits(rnd, configs, fleet, vs, parent, at).1 == ForestSpans(rnd, TreesOf(rnd, configs, vs), parent)
    ensures Extends(fleet, RunVisits(rnd, configs, fleet, vs, parent, at).0)
    decreases vs, 0
  {
    if vs != [] {
      VisitGivesSpans(rnd, configs, fleet, vs[0], parent, at, service);
      var first := RunVisit(rnd, configs, fleet, vs[0], parent, at);
      AttachedStays(fleet, first.0, service, parent, at);
      VisitsGiveSpans(rnd, configs, first.0, vs[1..], parent, at, service);
      ExtendsTwice(fleet, first.0, RunVisits(rnd, configs, first.0, vs[1..], parent, at).0);
      assert TreesOf(rnd, configs, vs)[1..] == TreesOf(rnd, configs, vs[1..]);
    }
  }

  // ---------------------------------------------------------------------------------------------
  // So the laws of call trees are laws of the machines
  // ---------------------------------------------------------------------------------------------

  /** A call nobody forces, in a service with the given fraction. */
  predicate PlainVisit(configs: Configs, v: Visit, fraction: real)
    decreases v, 1
  {
    && v.start.freshSpan != 0 && (exists i :: 0 <= i < 16 && v.start.freshTrace[i] != 0)
    && !ForcedBy(v.start.attributes) && configs(v.service).fraction == fraction
    && PlainVisits(configs, v.children, fraction)
  }

  predicate PlainVisits(configs: Configs, vs: seq<Visit>, fraction: real)
    decreases vs, 0
  {
    vs != [] ==> PlainVisit(configs, vs[0], fraction) && PlainVisits(configs, vs[1..], fraction)
  }

  lemma {:induction false} PlainVisitIsPlain(rnd: Rounding, configs: Configs, v: Visit, fraction: real)
    requires PlainVisit(configs, v, fraction)
    ensures AllPlain(TreeOf(rnd, configs, v), CalculateThreshold(rnd, fraction))
    decreases v, 1
  {
    PlainVisitsArePlain(rnd, configs, v.children, fraction);
  }

  lemma {:induction false} PlainVisitsArePlain(rnd: Rounding, configs: Configs, vs: seq<Visit>, fraction: real)
    requires PlainVisits(configs, vs, fraction)
    ensures AllPlainIn(TreesOf(rnd, configs, vs), CalculateThreshold(rnd, fraction))
    decreases vs, 0
  {
    if vs != [] {
      PlainVisitIsPlain(rnd, configs, vs[0], fraction);
      PlainVisitsArePlain(rnd, configs, vs[1..], fraction);
      assert TreesOf(rnd, configs, vs)[1..] == TreesOf(rnd, configs, vs[1..]);
    }
  }

  /** A trace that enters at some server, through services that share one fraction, with nobody forcing and
      nothing sampled upstream: the machines give all its spans one trace id, and sample all or none of them,
      by that id alone. */
  lemma TraceIsAllOrNothing(rnd: Rounding, configs: Configs, fleet: Fleet, v: Visit, upstream: SpanContext, fraction: real)
    requires v.kind == ServerKind && Placed(configs, v, v.service) && PlainVisit(configs, v, fraction)
    requires !upstream.sampled
    ensures var contexts := RunVisit(rnd, configs, fleet, v, upstream, None).1;
            var traceId := if upstream.IsValid() then upstream.traceId else v.start.freshTrace;
            && |contexts| > 0
            && AllAgree(contexts, traceId, HitsRatio(rnd, CalculateThreshold(rnd, fraction), Prefix(traceId)))
  {
    VisitGivesSpans(rnd, configs, fleet, v, upstream, None, v.service);
    PlainVisitIsPlain(rnd, configs, v, fraction);
    AllOrNothing(rnd, TreeOf(rnd, configs, v), upstream, CalculateThreshold(rnd, fraction));
    RemoteIsValid(upstream);
  }

  lemma RemoteIsValid(context: SpanContext)
    ensures context.(remote := true).IsValid() <==> context.IsValid()
  {
    if context.IsValid() {
      var i :| 0 <= i < 16 && context.traceId[i] != 0;
      assert context.(remote := true).traceId[i] != 0;
    }
  }
}
