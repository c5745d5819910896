/** `FinishSpan` of either filter, taken apart: what it does to a span are calls of the span interface and an
    end, between which other threads may do anything. Does the body it reported still get exported? */
module InterleavedFinish {
  import opened TraceTypes
  import opened Sampler
  import opened DeferredSampling
  import opened TracingFilters
  import opened TracingInvariants

  function RunFrom(hits: RatioTest, config: Config, w: World, events: seq<Event>): World
    decreases |events|
  {
    if events == [] then w else RunFrom(hits, config, Step(hits, config, w, events[0]), events[1..])
  }

  // ---------------------------------------------------------------------------------------------
  // One finish, step by step
  // ---------------------------------------------------------------------------------------------

  function CallsOn(i: nat, calls: seq<Call>): seq<Event> {
    seq(|calls|, k requires 0 <= k < |calls| => UserCall(i, calls[k]))
  }

  /** The steps of one finish, each on its own. */
  function Plan(config: Config, s: Span, i: nat, outcome: Outcome): seq<Event> {
    CallsOn(i, FinishCalls(config, s, outcome)) + [EndElsewhere(i, outcome.duration)]
  }

  lemma {:induction false} RunConcat(hits: RatioTest, config: Config, w: World, a: seq<Event>, b: seq<Event>)
    ensures RunFrom(hits, config, w, a + b) == RunFrom(hits, config, RunFrom(hits, config, w, a), b)
    decreases |a|
  {
    if a == [] {
      assert a + b == b;
    } else {
      assert (a + b)[1..] == a[1..] + b;
      RunConcat(hits, config, Step(hits, config, w, a[0]), a[1..], b);
    }
  }

  lemma {:induction false} CallsOneByOne(hits: RatioTest, config: Config, w: World, i: nat, calls: seq<Call>)
    requires i < |w.spans| && w.spans[i].recording
    requires forall k :: 0 <= k < |calls| ==> OnUserInterface(calls[k])
    ensures RunFrom(hits, config, w, CallsOn(i, calls)) ==
            SetSpan(w, i, w.spans[i].(calls := w.spans[i].calls + calls))
    decreases |calls|
  {
    var s := w.spans[i];
    if calls == [] {
      assert s.calls + calls == s.calls;
      assert w.spans[i := s] == w.spans;
    } else {
      var w' := SetSpan(w, i, s.(calls := s.calls + [calls[0]]));
      assert CallsOn(i, calls)[1..] == CallsOn(i, calls[1..]);
      CallsOneByOne(hits, config, w', i, calls[1..]);
      assert s.calls + [calls[0]] + calls[1..] == s.calls + calls;
    }
  }

  lemma FinishUsesTheInterface(config: Config, s: Span, outcome: Outcome)
    ensures var calls := FinishCalls(config, s, outcome);
            && |calls| > 0 && calls[|calls| - 1] == SetStatus(StatusOf(outcome))
            && forall k :: 0 <= k < |calls| ==> OnUserInterface(calls[k])
  {
  }

  lemma PlanRun(hits: RatioTest, config: Config, w: World, i: nat, outcome: Outcome)
    requires i < |w.spans| && w.spans[i].recording
    ensures var s := w.spans[i];
            var called := SetSpan(w, i, s.(calls := s.calls + FinishCalls(config, s, outcome)));
            RunFrom(hits, config, w, Plan(config, s, i, outcome)) == EndSpan(config, called, i, outcome.duration)
  {
    var calls := FinishCalls(config, w.spans[i], outcome);
    var end := EndElsewhere(i, outcome.duration);
    FinishUsesTheInterface(config, w.spans[i], outcome);
    CallsOneByOne(hits, config, w, i, calls);
    RunConcat(hits, config, w, CallsOn(i, calls), [end]);
    assert [end][1..] == [];
  }

  /** Uninterrupted, the steps are the filter's finish, but for the record of who did it. */
  lemma UninterruptedFinish(hits: RatioTest, config: Config, w: World, i: nat, outcome: Outcome)
    requires i < |w.spans| && w.spans[i].recording
    ensures var s := w.spans[i];
            var w' := FinishSpan(config, w, i, outcome);
            RunFrom(hits, config, w, Plan(config, s, i, outcome)) == SetSpan(w', i, w'.spans[i].(acts := s.acts))
  {
    var s := w.spans[i];
    PlanRun(hits, config, w, i, outcome);
    SameFinal(s.(calls := s.calls + FinishCalls(config, s, outcome)), MarkFinished(config, s, outcome), outcome.duration);
  }

  /** What is exported does not depend on the record of acts. */
  lemma SameFinal(s: Span, s': Span, duration: Int64)
    requires s'.(acts := s.acts) == s
    ensures Final(s.(calls := s.calls + [SetDuration(duration)], recording := false)) ==
            Final(s'.(calls := s'.calls + [SetDuration(duration)], recording := false))
  {
  }

  // ---------------------------------------------------------------------------------------------
  // With anything in between
  // ---------------------------------------------------------------------------------------------

  /** An event, and whether it is a step of the finish we follow. */
  datatype Turn = Turn(mine: bool, event: Event)

  function Events(turns: seq<Turn>): seq<Event> {
    if turns == [] then [] else [turns[0].event] + Events(turns[1..])
  }

  function Mine(turns: seq<Turn>): seq<Event> {
    if turns == [] then [] else (if turns[0].mine then [turns[0].event] else []) + Mine(turns[1..])
  }

  /** A span left alone, or ended. */
  ghost predicate KeptOrEnded(s: Span, s': Span) {
    SameHead(s, s') && (s' == s || (s.recording && !s'.recording))
  }

  lemma FinishEffect(config: Config, w: World, k: nat, outcome: Outcome, i: nat)
    requires k < |w.spans| && i < |w.spans|
    ensures var w' := FinishSpan(config, w, k, outcome);
            |w'.spans| == |w.spans| && KeptOrEnded(w.spans[i], w'.spans[i])
  {
  }

  lemma ClientStepEffect(hits: RatioTest, config: Config, w: World, e: Event, i: nat)
    requires i < |w.spans| && (e.ClientPre? || e.ClientPost?)
    ensures var w' := Step(hits, config, w, e);
            i < |w'.spans| && KeptOrEnded(w.spans[i], w'.spans[i])
  {
    if e.ClientPost? {
      var data := ClientDataOf(w, e.call);
      if data.span.Some? && data.span.value < |w.spans| {
        FinishEffect(config, w.(client := w.client[e.call := data]), data.span.value, e.outcome, i);
      }
    }
  }

  /** What a step can do to one span: nothing, end it, or add a call of a user; and an ended span stays as it
      is. */
  lemma StepEffect(hits: RatioTest, config: Config, w: World, e: Event, i: nat)
    requires i < |w.spans|
    ensures var w' := Step(hits, config, w, e);
            && i < |w'.spans| && SameHead(w.spans[i], w'.spans[i])
            && var s, s' := w.spans[i], w'.spans[i];
               || KeptOrEnded(s, s')
               || (s.recording && e.UserCall? && e.span == i && s' == s.(calls := s.calls + [e.invoked]))
  {
    match e
    case ServerPost(call, outcome) =>
      if call in w.server && w.server[call] < |w.spans| {
        FinishEffect(config, w, w.server[call], outcome, i);
      }
    case ClientPre(_, _, _) => ClientStepEffect(hits, config, w, e, i);
    case ClientPost(_, _, _) => ClientStepEffect(hits, config, w, e, i);
    case _ =>
  }

  /** The event undoes what the filter does: it ends the span before the filter has set its status, or leaves
      the status at Ok between the filter's status and its end. `left` counts the filter's steps to come. */
  ghost predicate Interferes(hits: RatioTest, config: Config, w: World, i: nat, e: Event, left: nat)
    requires i < |w.spans|
  {
    var w' := Step(hits, config, w, e);
    StepEffect(hits, config, w, e, i);
    && w.spans[i].recording
    && ((left >= 2 && !w'.spans[i].recording) || (left == 1 && Final(w'.spans[i]).code == Ok))
  }

  ghost predicate Interrupted(hits: RatioTest, config: Config, w: World, i: nat, turns: seq<Turn>)
    requires i < |w.spans|
    decreases |turns|
  {
    turns != [] &&
    var e := turns[0].event;
    StepEffect(hits, config, w, e, i);
    || (!turns[0].mine && Interferes(hits, config, w, i, e, |Mine(turns)|))
    || Interrupted(hits, config, Step(hits, config, w, e), i, turns[1..])
  }

  /** What is left of the plan of a finish that reports an error. */
  predicate PlanTail(i: nat, plan: seq<Event>) {
    var n := |plan|;
    && (n >= 1 ==> plan[n - 1].EndElsewhere? && plan[n - 1].span == i)
    && (n >= 2 ==> plan[n - 2] == UserCall(i, SetStatus(Error)))
    && (forall k :: 0 <= k < n - 1 ==> plan[k].UserCall? && plan[k].span == i)
  }

  lemma {:induction false} MineOneLess(turns: seq<Turn>, i: nat)
    requires turns != [] && PlanTail(i, Mine(turns))
    ensures PlanTail(i, Mine(turns[1..]))
    ensures Mine(turns) == (if turns[0].mine then [turns[0].event] else []) + Mine(turns[1..])
  {
    var rest := Mine(turns[1..]);
    if turns[0].mine {
      var n := |rest|;
      forall k | 0 <= k < n - 1 ensures rest[k].UserCall? && rest[k].span == i {
        assert rest[k] == Mine(turns)[k + 1];
      }
      if n >= 1 {
        assert rest[n - 1] == Mine(turns)[n];
      }
      if n >= 2 {
        assert rest[n - 2] == Mine(turns)[n - 1];
      }
    } else {
      assert Mine(turns) == rest;
    }
  }

  /** Before the filter's status the span records; after it the status is not Ok; after its end the span has
      ended. */
  predicate OnCourse(s: Span, left: nat) {
    && (left >= 2 ==> s.recording)
    && (left <= 1 ==> Final(s).code != Ok)
    && (left == 0 ==> !s.recording)
  }

  /** A step of a finish that reports an error, when `left` steps are to come. */
  predicate PlanStep(i: nat, e: Event, left: nat) {
    if left == 1 then e.EndElsewhere? && e.span == i
    else e.UserCall? && e.span == i && (left == 2 ==> e.invoked == SetStatus(Error))
  }

  lemma OwnStepStaysOnCourse(hits: RatioTest, config: Config, w: World, i: nat, e: Event, left: nat)
    requires i < |w.spans| && OnCourse(w.spans[i], left) && left >= 1 && PlanStep(i, e, left)
    ensures var w' := Step(hits, config, w, e);
            i < |w'.spans| && OnCourse(w'.spans[i], left - 1)
  {
    var s := w.spans[i];
    if e.UserCall? {
      TrackOne(s.born, s.calls, e.invoked);
    } else if s.recording {
      EndIsTracked(s, e.duration);
    }
  }

  lemma OtherStepStaysOnCourse(hits: RatioTest, config: Config, w: World, i: nat, e: Event, left: nat)
    requires i < |w.spans| && OnCourse(w.spans[i], left) && !Interferes(hits, config, w, i, e, left)
    ensures var w' := Step(hits, config, w, e);
            i < |w'.spans| && OnCourse(w'.spans[i], left)
  {
    StepEffect(hits, config, w, e, i);
  }

  lemma {:induction false} StepStaysOnCourse(hits: RatioTest, config: Config, w: World, i: nat, turns: seq<Turn>)
    requires i < |w.spans| && turns != [] && PlanTail(i, Mine(turns)) && OnCourse(w.spans[i], |Mine(turns)|)
    requires turns[0].mine || !Interferes(hits, config, w, i, turns[0].event, |Mine(turns)|)
    ensures var w' := Step(hits, config, w, turns[0].event);
            i < |w'.spans| && OnCourse(w'.spans[i], |Mine(turns[1..])|)
  {
    var e, left := turns[0].event, |Mine(turns)|;
    if turns[0].mine {
      assert e == Mine(turns)[0] && |Mine(turns[1..])| == left - 1;
      OwnStepStaysOnCourse(hits, config, w, i, e, left);
    } else {
      OtherStepStaysOnCourse(hits, config, w, i, e, left);
      assert Mine(turns) == Mine(turns[1..]);
    }
  }

  lemma {:induction false} StaysOnCourse(hits: RatioTest, config: Config, w: World, i: nat, turns: seq<Turn>)
    requires i < |w.spans| && PlanTail(i, Mine(turns)) && OnCourse(w.spans[i], |Mine(turns)|)
    requires !Interrupted(hits, config, w, i, turns)
    ensures var w' := RunFrom(hits, config, w, Events(turns));
            i < |w'.spans| && OnCourse(w'.spans[i], 0)
    decreases |turns|
  {
    if turns != [] {
      StepStaysOnCourse(hits, config, w, i, turns);
      MineOneLess(turns, i);
      StaysOnCourse(hits, config, Step(hits, config, w, turns[0].event), i, turns[1..]);
      assert Events(turns)[1..] == Events(turns[1..]);
    }
  }

  /** Whatever comes in between, a span has ended once its filter is through, and has kept how it started. */
  lemma {:induction false} FinishEnds(hits: RatioTest, config: Config, w: World, i: nat, turns: seq<Turn>)
    requires i < |w.spans|
    requires w.spans[i].recording ==>
               var mine := Mine(turns);
               mine != [] && mine[|mine| - 1].EndElsewhere? && mine[|mine| - 1].span == i
    ensures var w' := RunFrom(hits, config, w, Events(turns));
            i < |w'.spans| && SameHead(w.spans[i], w'.spans[i]) && !w'.spans[i].recording
    decreases |turns|
  {
    if turns != [] {
      var e, rest := turns[0].event, Mine(turns[1..]);
      var w' := Step(hits, config, w, e);
      StepEffect(hits, config, w, e, i);
      assert Mine(turns) == (if turns[0].mine then [e] else []) + rest;
      if w'.spans[i].recording && rest != [] {
        assert Mine(turns)[|Mine(turns)| - 1] == rest[|rest| - 1];
      }
      FinishEnds(hits, config, w', i, turns[1..]);
      assert Events(turns)[1..] == Events(turns[1..]);
    }
  }

  lemma {:induction false} RunFromKeepsInv(hits: RatioTest, config: Config, w: World, events: seq<Event>)
    requires Inv(config, w) && AllHeads(hits, config, w)
    ensures Inv(config, RunFrom(hits, config, w, events)) && AllHeads(hits, config, RunFrom(hits, config, w, events))
    decreases |events|
  {
    if events != [] {
      StepKeepsInv(hits, config, w, events[0]);
      StepKeepsAllHeads(hits, config, w, events[0]);
      RunFromKeepsInv(hits, config, Step(hits, config, w, events[0]), events[1..]);
    }
  }

  lemma PlanIsPlanTail(config: Config, s: Span, i: nat, outcome: Outcome)
    ensures var plan := Plan(config, s, i, outcome);
            && |plan| >= 2 && plan[|plan| - 1] == EndElsewhere(i, outcome.duration)
            && (!outcome.ok ==> PlanTail(i, plan))
  {
    FinishUsesTheInterface(config, s, outcome);
  }

  /** The fate of a span that a filter finishes after reporting a body, among any events of anybody else. */
  ghost predicate BodyKept(hits: RatioTest, config: Config, w: World, i: nat, turns: seq<Turn>)
    requires i < |w.spans|
  {
    var w' := RunFrom(hits, config, w, Events(turns));
    && i < |w'.spans| && Ended(w'.spans[i])
    && (i !in w'.exported
        <==> !w'.spans[i].context.sampled && Final(w'.spans[i]).code == Ok
             && Final(w'.spans[i]).duration <= SlowLimitNs(config))
    && (i !in w'.exported ==> Interrupted(hits, config, w, i, turns))
  }

  /** From any state of any run: a span whose body is reported gets exported, however other threads come in
      between, unless one of them ends it too early or overrides the error with Ok; and even then it is lost
      only if it is unsampled, fast and left at Ok. */
  lemma InterleavedBodiesAreExported(hits: RatioTest, config: Config, before: seq<Event>, i: nat, outcome: Outcome,
                                     turns: seq<Turn>)
    requires config == Wired(config)
    requires i < |Run(hits, config, before).spans| && Run(hits, config, before).spans[i].recording
    requires NeedReportReqRsp(config, Run(hits, config, before).spans[i], outcome)
    requires Mine(turns) == Plan(config, Run(hits, config, before).spans[i], i, outcome)
    ensures BodyKept(hits, config, Run(hits, config, before), i, turns)
  {
    InvHolds(hits, config, before);
    HeadsHold(hits, config, before);
    BodyKeptFrom(hits, config, Run(hits, config, before), i, outcome, turns);
  }

  lemma BodyKeptFrom(hits: RatioTest, config: Config, w: World, i: nat, outcome: Outcome, turns: seq<Turn>)
    requires config == Wired(config) && Inv(config, w) && AllHeads(hits, config, w)
    requires i < |w.spans| && w.spans[i].recording && NeedReportReqRsp(config, w.spans[i], outcome)
    requires Mine(turns) == Plan(config, w.spans[i], i, outcome)
    ensures BodyKept(hits, config, w, i, turns)
  {
    var s := w.spans[i];
    PlanIsPlanTail(config, s, i, outcome);
    FinishEnds(hits, config, w, i, turns);
    RunFromKeepsInv(hits, config, w, Events(turns));
    var w' := RunFrom(hits, config, w, Events(turns));
    assert SpanInv(config, s) && SpanInv(config, w'.spans[i]) && HeadInv(hits, config, w'.spans[i]);
    EndedSpanIsExplained(hits, config, w', i);
    if !s.context.sampled && !Interrupted(hits, config, w, i, turns) {
      StaysOnCourse(hits, config, w, i, turns);
    }
  }

  /** The filter's calls, then a user's Ok, then the filter's end. */
  function OverriddenPlan(config: Config, s: Span, i: nat, outcome: Outcome): seq<Event> {
    CallsOn(i, FinishCalls(config, s, outcome)) + [UserCall(i, SetStatus(Ok)), EndElsewhere(i, outcome.duration)]
  }

  function Overridden(config: Config, s: Span, outcome: Outcome): Span {
    s.(calls := s.calls + FinishCalls(config, s, outcome) + [SetStatus(Ok)])
  }

  lemma OverriddenRun(hits: RatioTest, config: Config, w: World, i: nat, outcome: Outcome)
    requires i < |w.spans| && w.spans[i].recording
    ensures RunFrom(hits, config, w, OverriddenPlan(config, w.spans[i], i, outcome)) ==
            EndSpan(config, SetSpan(w, i, Overridden(config, w.spans[i], outcome)), i, outcome.duration)
  {
    var calls := FinishCalls(config, w.spans[i], outcome);
    var ok, end := UserCall(i, SetStatus(Ok)), EndElsewhere(i, outcome.duration);
    FinishUsesTheInterface(config, w.spans[i], outcome);
    CallsOneByOne(hits, config, w, i, calls);
    RunConcat(hits, config, w, CallsOn(i, calls), [ok, end]);
    assert [ok, end][1..] == [end] && [end][1..] == [];
    var called := SetSpan(w, i, w.spans[i].(calls := w.spans[i].calls + calls));
    var overridden := SetSpan(w, i, Overridden(config, w.spans[i], outcome));
    assert Step(hits, config, called, ok) == overridden;
    assert RunFrom(hits, config, called, [ok, end]) == RunFrom(hits, config, overridden, [end]);
    assert RunFrom(hits, config, overridden, [end]) == Step(hits, config, overridden, end);
  }

  lemma OverriddenExport(config: Config, s: Span, outcome: Outcome)
    requires config.enableDeferredSample && outcome.duration <= SlowLimitNs(config) && !Final(s).sampled
    ensures var s' := Overridden(config, s, outcome);
            !Exports(config, s'.(calls := s'.calls + [SetDuration(outcome.duration)], recording := false))
  {
    var s' := Overridden(config, s, outcome);
    FinishIsTracked(config, s, outcome);
    TrackOne(s.born, s.calls + FinishCalls(config, s, outcome), SetStatus(Ok));
    EndIsTracked(s', outcome.duration);
    DeferredDecision(config, Final(s').(duration := outcome.duration));
  }

  /** And that is how a body is lost: whatever the filter reported, the span is unsampled and fast, and
      somebody sets its status to Ok between the filter's status and its end. */
  lemma OverriddenBodyIsLost(hits: RatioTest, config: Config, before: seq<Event>, i: nat, outcome: Outcome)
    requires config.enableDeferredSample && outcome.duration <= SlowLimitNs(config)
    ensures var w := Run(hits, config, before);
            i < |w.spans| && w.spans[i].recording && !w.spans[i].context.sampled ==>
              i !in RunFrom(hits, config, w, OverriddenPlan(config, w.spans[i], i, outcome)).exported
  {
    InvHolds(hits, config, before);
    var w := Run(hits, config, before);
    if i < |w.spans| && w.spans[i].recording && !w.spans[i].context.sampled {
      OverriddenIsDiscarded(hits, config, w, i, outcome);
    }
  }

  lemma OverriddenIsDiscarded(hits: RatioTest, config: Config, w: World, i: nat, outcome: Outcome)
    requires config.enableDeferredSample && outcome.duration <= SlowLimitNs(config)
    requires Inv(config, w) && i < |w.spans| && w.spans[i].recording && !w.spans[i].context.sampled
    ensures i !in RunFrom(hits, config, w, OverriddenPlan(config, w.spans[i], i, outcome)).exported
  {
    assert SpanInv(config, w.spans[i]);
    OverriddenRun(hits, config, w, i, outcome);
    OverriddenExport(config, w.spans[i], outcome);
    assert multiset(w.exported)[i] == (if EndedWith(config, w, i, true) then 1 else 0);
  }
}
