/** The traffic the gRPC exporters cause themselves: their requests leave through the client that the
    tracing filter observes (`tracing/client_filter.cc`), and the span of such a request waits for export
    in its turn. The exporters are run against the tracing machine, so what the guard is worth is read off
    the filter. */
module ExporterTraffic {
  import opened TraceTypes
  import opened Sampler
  import opened DeferredSampling
  import opened TracingFilters
  import opened TracingInvariants

  // ---------------------------------------------------------------------------------------------
  // What one call of an exporter does to the tracing machine
  // ---------------------------------------------------------------------------------------------

  /** With gRPC reporting, and only then, the trace exporter's own call leaves the tracing machine exactly
      as it was, at both filter points, however it starts. */
  lemma TraceExporterIsNotTraced(hits: RatioTest, config: Config, w: World, call: nat, outcome: Outcome)
    ensures UsesGrpc(config) <==>
            && (forall start: Start :: Step(hits, config, w, ClientPre(call, TRACE_EXPORTER, start)) == w)
            && Step(hits, config, w, ClientPost(call, TRACE_EXPORTER, outcome)) == w
  {
    if !UsesGrpc(config) {
      var start := Start([], NO_TRACE, 1, false, Unset, 0);
      assert |Step(hits, config, w, ClientPre(call, TRACE_EXPORTER, start)).spans| == |w.spans| + 1;
    }
  }

  /** The span a client call gets if it starts now. */
  function OwnSpan(hits: RatioTest, config: Config, w: World, call: nat, start: Start): Span {
    NewSpan(hits, config, ClientKind, ParentContext(w, ClientDataOf(w, call)), start)
  }

  /** Whether the span of a traced call that starts now and goes so will be exported. */
  ghost predicate CallIsExported(hits: RatioTest, config: Config, w: World, call: nat, start: Start, outcome: Outcome) {
    || Sampled(hits, config, OwnSpan(hits, config, w, call, start))
    || TailReason(config, Tracked(false, StatusOf(outcome), outcome.duration))
  }

  /** A traced call adds one span, which is exported at its end or not at all. */
  lemma TracedCallAddsOneIff(hits: RatioTest, config: Config, w: World, call: nat, start: Start, outcome: Outcome)
    ensures var w' := TraceClientPost(config, TraceClientPre(hits, config, w, call, start), call, outcome);
            && w'.exported == w.exported + (if CallIsExported(hits, config, w, call, start, outcome)
                                            then [|w.spans|] else [])
            && |w'.spans| == |w.spans| + 1 && w'.logs == w.logs
  {
    var s := OwnSpan(hits, config, w, call, start);
    NewSpanInv(hits, config, ClientKind, ParentContext(w, ClientDataOf(w, call)), start);
    NewSpanHead(hits, config, ClientKind, ParentContext(w, ClientDataOf(w, call)), start);
    if s.recording {
      var marked := MarkFinished(config, s, outcome);
      FinishIsTracked(config, s, outcome);
      EndIsTracked(marked, outcome.duration);
      if config.enableDeferredSample {
        DeferredDecision(config, Final(s).(code := StatusOf(outcome), duration := outcome.duration));
      }
    }
  }

  /** The log exporter's own call is traced like any other. */
  lemma LogExporterIsTraced(hits: RatioTest, config: Config, w: World, call: nat, start: Start, outcome: Outcome)
    ensures var sent := Step(hits, config, w, ClientPre(call, LOG_EXPORTER, start));
            var answered := Step(hits, config, sent, ClientPost(call, LOG_EXPORTER, outcome));
            answered.exported == w.exported + (if CallIsExported(hits, config, w, call, start, outcome)
                                               then [|w.spans|] else [])
  {
    assert |LOG_EXPORTER| != |TRACE_EXPORTER|;
    TracedCallAddsOneIff(hits, config, w, call, start, outcome);
  }

  /** What one event can add to the work of the exporters: a log line is one record, and what ends a span
      exports at most one. */
  function Cost(e: Event): nat {
    match e
    case Log(_, _) => 2
    case ServerPost(_, _) => 1
    case ClientPost(_, _, _) => 1
    case EndElsewhere(_, _) => 1
    case _ => 0
  }

  lemma StepCosts(hits: RatioTest, config: Config, w: World, e: Event)
    ensures var w' := Step(hits, config, w, e);
            && |w.logs| <= |w'.logs| && |w.exported| <= |w'.exported|
            && 2 * (|w'.logs| - |w.logs|) + |w'.exported| - |w.exported| <= Cost(e)
  {
  }

  // ---------------------------------------------------------------------------------------------
  // Exporters and users at work, interleaved
  // ---------------------------------------------------------------------------------------------

  /** The tracing machine, how many of its log records and exported spans the exporters have taken from
      their queues, and the exporters' own calls that are under way. */
  datatype Pipeline = Pipeline(tracing: World, logsTaken: nat, spansTaken: nat, logCalls: set<nat>, spanCalls: set<nat>)

  predicate Sound(p: Pipeline) {
    p.logsTaken <= |p.tracing.logs| && p.spansTaken <= |p.tracing.exported|
  }

  function WaitingLogs(p: Pipeline): nat
    requires Sound(p)
  {
    |p.tracing.logs| - p.logsTaken
  }

  function WaitingSpans(p: Pipeline): nat
    requires Sound(p)
  {
    |p.tracing.exported| - p.spansTaken
  }

  /** An exporter takes a batch and sends it in a call of its own, whose answer comes later; an exporter
      that has been shut down takes it for nothing; or a user does something. */
  datatype Move =
    | SendLogs(call: nat, batch: nat, start: Start)
    | AnswerLogs(call: nat, outcome: Outcome)
    | SendSpans(call: nat, batch: nat, start: Start)
    | AnswerSpans(call: nat, outcome: Outcome)
    | RefuseLogs(batch: nat)
    | RefuseSpans(batch: nat)
    | UserMove(event: Event)

  predicate CanMove(p: Pipeline, m: Move)
    requires Sound(p)
  {
    match m
    case SendLogs(call, batch, _) => 1 <= batch <= WaitingLogs(p) && call !in p.logCalls + p.spanCalls
    case AnswerLogs(call, _) => call in p.logCalls
    case SendSpans(call, batch, _) => 1 <= batch <= WaitingSpans(p) && call !in p.logCalls + p.spanCalls
    case AnswerSpans(call, _) => call in p.spanCalls
    case RefuseLogs(batch) => 1 <= batch <= WaitingLogs(p)
    case RefuseSpans(batch) => 1 <= batch <= WaitingSpans(p)
    case UserMove(_) => true
  }

  /** The client filter, with or without its guard. */
  datatype Filter = Filter(hits: RatioTest, config: Config, guarded: bool) {
    function Pre(w: World, call: nat, callee: string, start: Start): World {
      if guarded then Step(hits, config, w, ClientPre(call, callee, start))
      else TraceClientPre(hits, config, w, call, start)
    }

    function Post(w: World, call: nat, callee: string, outcome: Outcome): World {
      if guarded then Step(hits, config, w, ClientPost(call, callee, outcome))
      else TraceClientPost(config, w, call, outcome)
    }

    /** Either way, the filter point before a call exports nothing, the one after it at most one span, and
        neither logs. */
    lemma PreCosts(w: World, call: nat, callee: string, start: Start)
      ensures var w' := Pre(w, call, callee, start);
              w'.exported == w.exported && w'.logs == w.logs
    {
    }

    lemma PostCosts(w: World, call: nat, callee: string, outcome: Outcome)
      ensures var w' := Post(w, call, callee, outcome);
              |w.exported| <= |w'.exported| <= |w.exported| + 1 && w'.logs == w.logs
    {
    }
  }

  function Moved(f: Filter, p: Pipeline, m: Move): (p': Pipeline)
    requires Sound(p) && CanMove(p, m)
    ensures Sound(p')
  {
    match m
    case SendLogs(call, batch, start) =>
      p.(tracing := f.Pre(p.tracing, call, LOG_EXPORTER, start), logsTaken := p.logsTaken + batch,
         logCalls := p.logCalls + {call})
    case AnswerLogs(call, outcome) =>
      f.PostCosts(p.tracing, call, LOG_EXPORTER, outcome);
      p.(tracing := f.Post(p.tracing, call, LOG_EXPORTER, outcome), logCalls := p.logCalls - {call})
    case SendSpans(call, batch, start) =>
      p.(tracing := f.Pre(p.tracing, call, TRACE_EXPORTER, start), spansTaken := p.spansTaken + batch,
         spanCalls := p.spanCalls + {call})
    case AnswerSpans(call, outcome) =>
      f.PostCosts(p.tracing, call, TRACE_EXPORTER, outcome);
      p.(tracing := f.Post(p.tracing, call, TRACE_EXPORTER, outcome), spanCalls := p.spanCalls - {call})
    case RefuseLogs(batch) => p.(logsTaken := p.logsTaken + batch)
    case RefuseSpans(batch) => p.(spansTaken := p.spansTaken + batch)
    case UserMove(e) =>
      StepCosts(f.hits, f.config, p.tracing, e);
      p.(tracing := Step(f.hits, f.config, p.tracing, e))
  }

  ghost predicate IsSchedule(f: Filter, p: Pipeline, ms: seq<Move>)
    requires Sound(p)
    decreases |ms|
  {
    ms != [] ==> CanMove(p, ms[0]) && IsSchedule(f, Moved(f, p, ms[0]), ms[1..])
  }

  function After(f: Filter, p: Pipeline, ms: seq<Move>): (p': Pipeline)
    requires Sound(p) && IsSchedule(f, p, ms)
    ensures Sound(p')
    decreases |ms|
  {
    if ms == [] then p else After(f, Moved(f, p, ms[0]), ms[1..])
  }

  // ---------------------------------------------------------------------------------------------
  // With the guard
  // ---------------------------------------------------------------------------------------------

  /** The exports that can still come of a state: a waiting log record can cost two, its own and that of
      the span its call causes; a waiting span, and a log call under way, one. */
  function Work(p: Pipeline): nat
    requires Sound(p)
  {
    2 * WaitingLogs(p) + WaitingSpans(p) + |p.logCalls|
  }

  function Size(p: Pipeline): nat
    requires Sound(p)
  {
    2 * Work(p) + |p.logCalls| + |p.spanCalls|
  }

  function Sends(ms: seq<Move>): nat {
    if ms == [] then 0 else (if ms[0].SendLogs? || ms[0].SendSpans? then 1 else 0) + Sends(ms[1..])
  }

  /** The moves of the exporters. */
  function OwnMoves(ms: seq<Move>): nat {
    if ms == [] then 0 else (if ms[0].UserMove? then 0 else 1) + OwnMoves(ms[1..])
  }

  function UserCost(ms: seq<Move>): nat {
    if ms == [] then 0 else (if ms[0].UserMove? then Cost(ms[0].event) else 0) + UserCost(ms[1..])
  }

  lemma MoveCosts(f: Filter, p: Pipeline, m: Move)
    requires Sound(p) && CanMove(p, m) && f.guarded && UsesGrpc(f.config)
    ensures var p' := Moved(f, p, m);
            && Sends([m]) + Work(p') <= Work(p) + UserCost([m])
            && OwnMoves([m]) + Size(p') <= Size(p) + 2 * UserCost([m])
  {
    assert [m][1..] == [];
    match m
    case SendLogs(call, _, start) =>
      f.PreCosts(p.tracing, call, LOG_EXPORTER, start);
    case AnswerLogs(call, outcome) =>
      f.PostCosts(p.tracing, call, LOG_EXPORTER, outcome);
    case SendSpans(call, _, start) =>
      f.PreCosts(p.tracing, call, TRACE_EXPORTER, start);
    case AnswerSpans(call, outcome) =>
      TraceExporterIsNotTraced(f.hits, f.config, p.tracing, call, outcome);
    case UserMove(e) => StepCosts(f.hits, f.config, p.tracing, e);
    case _ =>
  }

  /** With the guard, in every interleaving, the exporters send at most what was waiting and what the users
      have added since can cost, and what they have not used up is still left. So without new work of
      users every schedule whatsoever is finite. */
  lemma {:induction false} DrainingTerminates(f: Filter, p: Pipeline, ms: seq<Move>)
    requires f.guarded && UsesGrpc(f.config) && Sound(p) && IsSchedule(f, p, ms)
    ensures Sends(ms) + Work(After(f, p, ms)) <= Work(p) + UserCost(ms)
    ensures OwnMoves(ms) + Size(After(f, p, ms)) <= Size(p) + 2 * UserCost(ms)
    decreases |ms|
  {
    if ms != [] {
      assert [ms[0]][1..] == [];
      MoveCosts(f, p, ms[0]);
      DrainingTerminates(f, Moved(f, p, ms[0]), ms[1..]);
    }
  }

  /** A schedule in which only the exporters move, `sends` times a batch is sent, and which ends in `end`. */
  ghost predicate Achieves(f: Filter, p: Pipeline, ms: seq<Move>, sends: nat, end: Pipeline)
    requires Sound(p)
  {
    IsSchedule(f, p, ms) && After(f, p, ms) == end && Sends(ms) == sends && OwnMoves(ms) == |ms|
  }

  lemma MoveFirst(f: Filter, p: Pipeline, m: Move, rest: seq<Move>, sends: nat, end: Pipeline)
    requires Sound(p) && CanMove(p, m) && !m.UserMove? && Achieves(f, Moved(f, p, m), rest, sends, end)
    ensures Achieves(f, p, [m] + rest, if m.SendLogs? || m.SendSpans? then sends + 1 else sends, end)
  {
    assert ([m] + rest)[1..] == rest;
  }

  lemma TwoMovesFirst(f: Filter, p: Pipeline, send: Move, answer: Move, rest: seq<Move>, sends: nat, end: Pipeline)
    returns (ms: seq<Move>)
    requires Sound(p) && CanMove(p, send) && (send.SendLogs? || send.SendSpans?)
    requires CanMove(Moved(f, p, send), answer) && (answer.AnswerLogs? || answer.AnswerSpans?)
    requires Achieves(f, Moved(f, Moved(f, p, send), answer), rest, sends, end)
    ensures Achieves(f, p, ms, sends + 1, end)
  {
    MoveFirst(f, Moved(f, p, send), answer, rest, sends, end);
    MoveFirst(f, p, send, [answer] + rest, sends, end);
    ms := [send] + ([answer] + rest);
  }

  /** A batch of one that is sent and answered, with nothing else under way, costs exactly one of the work. */
  ghost predicate CostsOne(f: Filter, p: Pipeline, send: Move, answer: Move)
    requires Sound(p)
  {
    && CanMove(p, send) && CanMove(Moved(f, p, send), answer)
    && var p' := Moved(f, Moved(f, p, send), answer);
       p'.logCalls == p'.spanCalls == {} && Work(p') + 1 == Work(p)
  }

  lemma SpanCostsOne(f: Filter, p: Pipeline, start: Start, outcome: Outcome)
    requires f.guarded && UsesGrpc(f.config)
    requires Sound(p) && p.logCalls == p.spanCalls == {} && WaitingSpans(p) > 0
    ensures CostsOne(f, p, SendSpans(0, 1, start), AnswerSpans(0, outcome))
  {
  }

  lemma LogCostsOne(f: Filter, p: Pipeline, start: Start, outcome: Outcome)
    requires f.guarded && UsesGrpc(f.config) && Forced(start.attributes)
    requires Sound(p) && p.logCalls == p.spanCalls == {} && WaitingLogs(p) > 0
    ensures CostsOne(f, p, SendLogs(0, 1, start), AnswerLogs(0, outcome))
  {
    LogExporterIsTraced(f.hits, f.config, p.tracing, 0, start, outcome);
    f.PreCosts(p.tracing, 0, LOG_EXPORTER, start);
    f.PostCosts(f.Pre(p.tracing, 0, LOG_EXPORTER, start), 0, LOG_EXPORTER, outcome);
  }

  /** The bound is the best possible: if the exporters' own calls are forced to be sampled, some schedule
      uses it up, and nothing waits at its end. */
  lemma {:induction false} BoundIsReached(f: Filter, p: Pipeline, start: Start, outcome: Outcome)
    returns (ms: seq<Move>, end: Pipeline)
    requires f.guarded && UsesGrpc(f.config) && Forced(start.attributes)
    requires Sound(p) && p.logCalls == p.spanCalls == {}
    ensures Sound(end) && Work(end) == 0 && Achieves(f, p, ms, Work(p), end)
    decreases Work(p)
  {
    if Work(p) == 0 {
      ms, end := [], p;
    } else {
      var send, answer;
      if WaitingSpans(p) > 0 {
        send, answer := SendSpans(0, 1, start), AnswerSpans(0, outcome);
        SpanCostsOne(f, p, start, outcome);
      } else {
        send, answer := SendLogs(0, 1, start), AnswerLogs(0, outcome);
        LogCostsOne(f, p, start, outcome);
      }
      var p' := Moved(f, Moved(f, p, send), answer);
      ms, end := BoundIsReached(f, p', start, outcome);
      ms := TwoMovesFirst(f, p, send, answer, ms, Work(p'), end);
    }
  }

  // ---------------------------------------------------------------------------------------------
  // Without the guard
  // ---------------------------------------------------------------------------------------------

  /** The call is not linked to a span that does not exist. */
  predicate Linked(w: World, call: nat) {
    var parent := ClientDataOf(w, call).parent;
    parent.Some? ==> parent.value < |w.spans|
  }

  /** Without the guard, a span export makes a new span wait exactly if the span of its own call is
      exported; and then the same call would do so again. */
  lemma UnguardedExportFeedsItselfIff(f: Filter, p: Pipeline, call: nat, batch: nat, start: Start, outcome: Outcome)
    requires !f.guarded && Sound(p) && CanMove(p, SendSpans(call, batch, start))
    ensures var sent := Moved(f, p, SendSpans(call, batch, start));
            var again := CallIsExported(f.hits, f.config, p.tracing, call, start, outcome);
            && CanMove(sent, AnswerSpans(call, outcome))
            && var p' := Moved(f, sent, AnswerSpans(call, outcome));
               && WaitingSpans(p') == WaitingSpans(p) - batch + (if again then 1 else 0)
               && p'.logCalls == p.logCalls && p'.spanCalls == p.spanCalls
               && (Linked(p.tracing, call) ==>
                     && Linked(p'.tracing, call)
                     && CallIsExported(f.hits, f.config, p'.tracing, call, start, outcome) == again)
  {
    TracedCallAddsOneIff(f.hits, f.config, p.tracing, call, start, outcome);
    assert p.spanCalls + {call} - {call} == p.spanCalls;
    if Linked(p.tracing, call) {
      SameParentAfterCall(f.hits, f.config, p.tracing, call, start, outcome);
    }
  }

  lemma SameParentAfterCall(hits: RatioTest, config: Config, w: World, call: nat, start: Start, outcome: Outcome)
    requires Linked(w, call)
    ensures var w' := TraceClientPost(config, TraceClientPre(hits, config, w, call, start), call, outcome);
            && Linked(w', call)
            && ParentContext(w', ClientDataOf(w', call)) == ParentContext(w, ClientDataOf(w, call))
  {
    var sent := TraceClientPre(hits, config, w, call, start);
    FinishKeepsHeads(config, sent.(client := sent.client[call := ClientDataOf(sent, call)]), |w.spans|, outcome);
  }

  /** So without the guard, one waiting span and one call whose span is exported are enough for schedules
      of every length, after which as much waits as before. */
  lemma {:induction false} UnguardedNeverDrains(f: Filter, p: Pipeline, call: nat, start: Start, outcome: Outcome, n: nat)
    returns (ms: seq<Move>, end: Pipeline)
    requires !f.guarded && Sound(p) && CanMove(p, SendSpans(call, 1, start)) && Linked(p.tracing, call)
    requires CallIsExported(f.hits, f.config, p.tracing, call, start, outcome)
    ensures Sound(end) && WaitingSpans(end) == WaitingSpans(p) && Achieves(f, p, ms, n, end)
    decreases n
  {
    if n == 0 {
      ms, end := [], p;
    } else {
      var send, answer := SendSpans(call, 1, start), AnswerSpans(call, outcome);
      UnguardedExportFeedsItselfIff(f, p, call, 1, start, outcome);
      var p' := Moved(f, Moved(f, p, send), answer);
      ms, end := UnguardedNeverDrains(f, p', call, start, outcome, n - 1);
      ms := TwoMovesFirst(f, p, send, answer, ms, n - 1, end);
    }
  }
}
