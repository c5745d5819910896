/** Head sampling over whole traces: every span starts from the context of its parent, through the filter
    data inside a service and through the request between services. */
module CallTree {
  import opened TraceTypes
  import opened Sampler

  /** One span with everything that decides its sampling, and the spans it caused. */
  datatype Tree = Node(sampler: TrpcSampler, inputs: StartInputs, kind: SpanKind, children: seq<Tree>)

  /** What a child of the given kind sees of its parent: a client span reads the parent span itself; a
      server span extracts the context its caller injected, now marked remote. */
  function Transmit(context: SpanContext, kind: SpanKind): SpanContext {
    match kind
    case ClientKind => context
    case ServerKind => context.(remote := true)
  }

  function RootContext(rnd: Rounding, t: Tree, parent: SpanContext): SpanContext {
    StartContext(RatioTestOf(rnd, t.sampler), t.sampler.options, Transmit(parent, t.kind), t.inputs)
  }

  /** The contexts of all spans of the tree, parents first. */
  function Spans(rnd: Rounding, t: Tree, parent: SpanContext): seq<SpanContext>
    decreases t, 1
  {
    var context := RootContext(rnd, t, parent);
    [context] + ForestSpans(rnd, t.children, context)
  }

  function ForestSpans(rnd: Rounding, ts: seq<Tree>, parent: SpanContext): seq<SpanContext>
    decreases ts, 0
  {
    if ts == [] then [] else Spans(rnd, ts[0], parent) + ForestSpans(rnd, ts[1..], parent)
  }

  // ---------------------------------------------------------------------------------------------
  // What holds at every node of a tree
  // ---------------------------------------------------------------------------------------------

  predicate FreshIdsAreValid(t: Tree) {
    t.inputs.freshSpan != 0 && exists i :: 0 <= i < 16 && t.inputs.freshTrace[i] != 0
  }

  /** A node nobody forces whose service has the given ratio; its other options are free. */
  predicate Plain(t: Tree, threshold: nat) {
    FreshIdsAreValid(t) && !t.inputs.forced && t.sampler.threshold == threshold
  }

  predicate InheritsAtNode(t: Tree) {
    !t.sampler.options.disableParentSampling
  }

  predicate AllPlain(t: Tree, threshold: nat)
    decreases t, 1
  {
    Plain(t, threshold) && AllPlainIn(t.children, threshold)
  }

  predicate AllPlainIn(ts: seq<Tree>, threshold: nat)
    decreases ts, 0
  {
    ts != [] ==> AllPlain(ts[0], threshold) && AllPlainIn(ts[1..], threshold)
  }

  predicate AllInherit(t: Tree)
    decreases t, 1
  {
    InheritsAtNode(t) && AllInheritIn(t.children)
  }

  predicate AllInheritIn(ts: seq<Tree>)
    decreases ts, 0
  {
    ts != [] ==> AllInherit(ts[0]) && AllInheritIn(ts[1..])
  }

  // ---------------------------------------------------------------------------------------------
  // All or nothing
  // ---------------------------------------------------------------------------------------------

  ghost predicate AllAgree(contexts: seq<SpanContext>, traceId: TraceId, sampled: bool) {
    forall i :: 0 <= i < |contexts| ==> contexts[i].traceId == traceId && contexts[i].sampled == sampled
  }

  lemma AgreeConcat(a: seq<SpanContext>, b: seq<SpanContext>, traceId: TraceId, sampled: bool)
    requires AllAgree(a, traceId, sampled) && AllAgree(b, traceId, sampled)
    ensures AllAgree(a + b, traceId, sampled)
  {
  }

  lemma RootIsValid(rnd: Rounding, t: Tree, parent: SpanContext)
    requires FreshIdsAreValid(t)
    ensures RootContext(rnd, t, parent).IsValid()
    ensures parent.IsValid() ==> RootContext(rnd, t, parent).traceId == parent.traceId
  {
    var traceId := RootContext(rnd, t, parent).traceId;
    if parent.IsValid() {
      assert Transmit(parent, t.kind).IsValid();
      var i :| 0 <= i < 16 && parent.traceId[i] != 0;
      assert traceId[i] != 0;
    } else {
      assert !Transmit(parent, t.kind).IsValid();
      var i :| 0 <= i < 16 && t.inputs.freshTrace[i] != 0;
      assert traceId[i] != 0;
    }
  }

  /** Below a parent whose own flag is what the shared ratio says, every span gets that same flag. */
  lemma {:induction false} PlainSubtree(rnd: Rounding, t: Tree, parent: SpanContext, threshold: nat)
    requires AllPlain(t, threshold)
    requires parent.sampled ==> parent.IsValid() && HitsRatio(rnd, threshold, Prefix(parent.traceId))
    ensures var root := RootContext(rnd, t, parent);
            && root.IsValid()
            && root.sampled == HitsRatio(rnd, threshold, Prefix(root.traceId))
            && (parent.IsValid() ==> root.traceId == parent.traceId)
            && AllAgree(Spans(rnd, t, parent), root.traceId, root.sampled)
    decreases t, 1
  {
    var root := RootContext(rnd, t, parent);
    assert Plain(t, threshold);
    RootIsValid(rnd, t, parent);
    PlainForest(rnd, t.children, root, threshold);
    AgreeConcat([root], ForestSpans(rnd, t.children, root), root.traceId, root.sampled);
  }

  lemma {:induction false} PlainForest(rnd: Rounding, ts: seq<Tree>, parent: SpanContext, threshold: nat)
    requires AllPlainIn(ts, threshold)
    ensures parent.IsValid() && parent.sampled == HitsRatio(rnd, threshold, Prefix(parent.traceId))
            ==> AllAgree(ForestSpans(rnd, ts, parent), parent.traceId, parent.sampled)
    decreases ts, 0
  {
    if ts != [] && parent.IsValid() && parent.sampled == HitsRatio(rnd, threshold, Prefix(parent.traceId)) {
      PlainSubtree(rnd, ts[0], parent, threshold);
      PlainForest(rnd, ts[1..], parent, threshold);
      AgreeConcat(Spans(rnd, ts[0], parent), ForestSpans(rnd, ts[1..], parent), parent.traceId, parent.sampled);
    }
  }

  /** A trace whose services share one ratio, with nobody forcing and nothing sampled upstream, is sampled
      as a whole or not at all, by its trace id alone, whichever services inherit. */
  lemma AllOrNothing(rnd: Rounding, t: Tree, upstream: SpanContext, threshold: nat)
    requires AllPlain(t, threshold) && !upstream.sampled
    ensures var traceId := RootContext(rnd, t, upstream).traceId;
            AllAgree(Spans(rnd, t, upstream), traceId, HitsRatio(rnd, threshold, Prefix(traceId)))
  {
    PlainSubtree(rnd, t, upstream, threshold);
  }

  // ---------------------------------------------------------------------------------------------
  // Below a sampled span
  // ---------------------------------------------------------------------------------------------

  ghost predicate AllSampled(contexts: seq<SpanContext>) {
    forall i :: 0 <= i < |contexts| ==> contexts[i].sampled
  }

  lemma SampledConcat(a: seq<SpanContext>, b: seq<SpanContext>)
    requires AllSampled(a) && AllSampled(b)
    ensures AllSampled(a + b)
  {
  }

  /** When every service inherits, everything below a sampled parent is sampled, at any ratio. */
  lemma {:induction false} SampledSubtree(rnd: Rounding, t: Tree, parent: SpanContext)
    requires AllInherit(t) && parent.sampled
    ensures AllSampled(Spans(rnd, t, parent))
    decreases t, 1
  {
    var root := RootContext(rnd, t, parent);
    assert InheritsAtNode(t);
    SampledForest(rnd, t.children, root);
    SampledConcat([root], ForestSpans(rnd, t.children, root));
  }

  lemma {:induction false} SampledForest(rnd: Rounding, ts: seq<Tree>, parent: SpanContext)
    requires AllInheritIn(ts) && parent.sampled
    ensures AllSampled(ForestSpans(rnd, ts, parent))
    decreases ts, 0
  {
    if ts != [] {
      SampledSubtree(rnd, ts[0], parent);
      SampledForest(rnd, ts[1..], parent);
      SampledConcat(Spans(rnd, ts[0], parent), ForestSpans(rnd, ts[1..], parent));
    }
  }

  // ---------------------------------------------------------------------------------------------
  // Why one span is sampled, for arbitrary services
  // ---------------------------------------------------------------------------------------------

  /** A path from the root: the index of the child taken at each level. */
  predicate IsPath(t: Tree, path: seq<nat>)
    decreases |path|
  {
    path != [] ==> path[0] < |t.children| && IsPath(t.children[path[0]], path[1..])
  }

  /** The nodes along a path, the root first. */
  function Along(t: Tree, path: seq<nat>): (nodes: seq<Tree>)
    requires IsPath(t, path)
    ensures |nodes| == |path| + 1
    decreases |path|
  {
    if path == [] then [t] else [t] + Along(t.children[path[0]], path[1..])
  }

  /** The context of the span at the end of a path. */
  function ContextAt(rnd: Rounding, t: Tree, parent: SpanContext, path: seq<nat>): SpanContext
    requires IsPath(t, path)
    decreases |path|
  {
    var root := RootContext(rnd, t, parent);
    if path == [] then root else ContextAt(rnd, t.children[path[0]], root, path[1..])
  }

  /** A path ends at a span of the tree. */
  lemma {:induction false} PathEndsInTree(rnd: Rounding, t: Tree, parent: SpanContext, path: seq<nat>)
    requires IsPath(t, path)
    ensures ContextAt(rnd, t, parent, path) in Spans(rnd, t, parent)
    decreases |path|
  {
    var root := RootContext(rnd, t, parent);
    if path != [] {
      var child := t.children[path[0]];
      PathEndsInTree(rnd, child, root, path[1..]);
      ForestContains(rnd, t.children, root, path[0]);
    }
  }

  lemma {:induction false} ForestContains(rnd: Rounding, ts: seq<Tree>, parent: SpanContext, k: nat)
    requires k < |ts|
    ensures forall c :: c in Spans(rnd, ts[k], parent) ==> c in ForestSpans(rnd, ts, parent)
    decreases |ts|
  {
    if k > 0 {
      ForestContains(rnd, ts[1..], parent, k - 1);
    }
  }

  /** Every span of the tree is at the end of some path. */
  lemma {:induction false} SpanHasPath(rnd: Rounding, t: Tree, parent: SpanContext, i: nat) returns (path: seq<nat>)
    requires i < |Spans(rnd, t, parent)|
    ensures IsPath(t, path) && ContextAt(rnd, t, parent, path) == Spans(rnd, t, parent)[i]
    decreases t, 1
  {
    if i == 0 {
      path := [];
    } else {
      var k, rest := ForestSpanHasPath(rnd, t.children, RootContext(rnd, t, parent), i - 1);
      path := [k] + rest;
    }
  }

  lemma {:induction false} ForestSpanHasPath(rnd: Rounding, ts: seq<Tree>, parent: SpanContext, i: nat)
    returns (k: nat, path: seq<nat>)
    requires i < |ForestSpans(rnd, ts, parent)|
    ensures k < |ts| && IsPath(ts[k], path)
    ensures ContextAt(rnd, ts[k], parent, path) == ForestSpans(rnd, ts, parent)[i]
    decreases ts, 0
  {
    var first := |Spans(rnd, ts[0], parent)|;
    if i < first {
      k := 0;
      path := SpanHasPath(rnd, ts[0], parent, i);
    } else {
      k, path := ForestSpanHasPath(rnd, ts[1..], parent, i - first);
      k := k + 1;
    }
  }

  /** The node samples on its own account. */
  predicate OwnReason(rnd: Rounding, t: Tree, traceId: TraceId) {
    t.inputs.forced || Hits(rnd, t.sampler, traceId)
  }

  ghost predicate InheritsFrom(nodes: seq<Tree>, s: int)
    requires 0 <= s
  {
    forall j :: s <= j < |nodes| ==> InheritsAtNode(nodes[j])
  }

  /** Position 0 stands for the upstream caller, position i + 1 for node i: the flag originates at
      position `s` and every node after it inherits. */
  ghost predicate ReachedFrom(rnd: Rounding, nodes: seq<Tree>, upstreamSampled: bool, traceId: TraceId, s: int) {
    && 0 <= s <= |nodes|
    && (if s == 0 then upstreamSampled else OwnReason(rnd, nodes[s - 1], traceId))
    && InheritsFrom(nodes, s)
  }

  ghost predicate Reached(rnd: Rounding, nodes: seq<Tree>, upstreamSampled: bool, traceId: TraceId) {
    exists s :: ReachedFrom(rnd, nodes, upstreamSampled, traceId, s)
  }

  /** A span is sampled exactly when some span above it, itself, or the upstream caller had a reason and
      no service in between refused to inherit. */
  lemma {:induction false} SampledIffReached(rnd: Rounding, t: Tree, parent: SpanContext, path: seq<nat>)
    requires IsPath(t, path)
    requires forall n :: n in Along(t, path) ==> FreshIdsAreValid(n)
    ensures ContextAt(rnd, t, parent, path).sampled
       <==> Reached(rnd, Along(t, path), parent.sampled, RootContext(rnd, t, parent).traceId)
    decreases |path|
  {
    var root := RootContext(rnd, t, parent);
    var nodes := Along(t, path);
    var id := root.traceId;
    assert nodes[0] == t;
    RootIsValid(rnd, t, parent);
    assert root.sampled <==> OwnReason(rnd, t, id) || (InheritsAtNode(t) && parent.sampled);
    if path == [] {
      assert ReachedFrom(rnd, nodes, parent.sampled, id, 0) <==> InheritsAtNode(t) && parent.sampled;
      assert ReachedFrom(rnd, nodes, parent.sampled, id, 1) <==> OwnReason(rnd, t, id);
    } else {
      var child := t.children[path[0]];
      var rest := Along(child, path[1..]);
      assert nodes == [t] + rest;
      forall n | n in rest ensures FreshIdsAreValid(n) {
        assert n in nodes;
      }
      RootIsValid(rnd, child, root) by {
        assert Along(child, path[1..])[0] == child;
      }
      SampledIffReached(rnd, child, root, path[1..]);
      ReachedThroughRoot(rnd, t, rest, parent.sampled, root.sampled, id);
    }
  }

  lemma ReachedThroughRoot(rnd: Rounding, t: Tree, rest: seq<Tree>, up: bool, rootSampled: bool, id: TraceId)
    requires rootSampled <==> OwnReason(rnd, t, id) || (InheritsAtNode(t) && up)
    ensures Reached(rnd, rest, rootSampled, id) <==> Reached(rnd, [t] + rest, up, id)
  {
    ReachedAtTheTop(rnd, t, rest, up, rootSampled, id);
    if s :| ReachedFrom(rnd, rest, rootSampled, id, s) {
      ShiftReached(rnd, t, rest, up, rootSampled, id, s);
    }
    if s :| ReachedFrom(rnd, [t] + rest, up, id, s) {
      var below := s - 1;
      ShiftReached(rnd, t, rest, up, rootSampled, id, below);
      assert s == below + 1;
    }
  }

  lemma ShiftInherits(t: Tree, rest: seq<Tree>, s: nat)
    ensures InheritsFrom(rest, s) <==> InheritsFrom([t] + rest, s + 1)
    ensures InheritsFrom([t] + rest, 0) <==> InheritsAtNode(t) && InheritsFrom([t] + rest, 1)
  {
    var nodes := [t] + rest;
    assert nodes[0] == t;
    if InheritsFrom(rest, s) {
      assert forall j :: 1 <= j < |nodes| ==> nodes[j] == rest[j - 1];
    }
    if InheritsFrom(nodes, s + 1) {
      assert forall j :: 0 <= j < |rest| ==> rest[j] == nodes[j + 1];
    }
  }

  /** A flag that reaches the whole rest of the path came from the root itself or from upstream. */
  lemma ReachedAtTheTop(rnd: Rounding, t: Tree, rest: seq<Tree>, up: bool, rootSampled: bool, id: TraceId)
    requires rootSampled <==> OwnReason(rnd, t, id) || (InheritsAtNode(t) && up)
    ensures ReachedFrom(rnd, rest, rootSampled, id, 0)
       <==> ReachedFrom(rnd, [t] + rest, up, id, 0) || ReachedFrom(rnd, [t] + rest, up, id, 1)
  {
    ShiftInherits(t, rest, 0);
  }

  lemma ShiftReached(rnd: Rounding, t: Tree, rest: seq<Tree>, up: bool, rootSampled: bool, id: TraceId, s: int)
    ensures s >= 1 ==> (ReachedFrom(rnd, rest, rootSampled, id, s) <==> ReachedFrom(rnd, [t] + rest, up, id, s + 1))
  {
    if s >= 1 {
      ShiftInherits(t, rest, s);
    }
  }
}
