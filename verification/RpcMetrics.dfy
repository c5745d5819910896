/** The RPC metrics of `metrics/client_filter.cc`, `metrics/server_filter.cc` and
    `metrics/opentelemetry_metrics.cc`: started_total, handled_seconds and handled_total are updated by
    separate reports, which those of other calls may come between. */
module RpcMetrics {
  import T = TraceTypes
  import opened ErrorCodes

  datatype Side = ClientSide | ServerSide

  /** The six kinds of module report. */
  datatype ReportType = StartedCount(side: Side) | HandledCount(side: Side) | HandledTime(side: Side)

  /** A metric family: by label set, what its histogram has observed, in milliseconds, or its counter has been
      incremented by, in order. */
  type Family = map<Labels, seq<int>>

  function Observations(family: Family, labels: Labels): seq<int> {
    if labels in family then family[labels] else []
  }

  /** The value of a counter, or the count of a histogram. */
  function Value(family: Family, labels: Labels): nat {
    |Observations(family, labels)|
  }

  function Observe(family: Family, labels: Labels, value: int): Family {
    family[labels := Observations(family, labels) + [value]]
  }

  type Families = map<ReportType, Family>

  function FamilyOf(families: Families, reportType: ReportType): Family {
    if reportType in families then families[reportType] else map[]
  }

  function Report(families: Families, reportType: ReportType, labels: Labels, value: int): Families {
    families[reportType := Observe(FamilyOf(families, reportType), labels, value)]
  }

  /** The four names of a call. */
  datatype Names = Names(callerService: string, callerMethod: string, calleeService: string, calleeMethod: string)

  /** The names a filter reports: a server filter leaves the caller's method empty. */
  function ReportedNames(side: Side, names: Names): Names {
    match side
    case ClientSide => names
    case ServerSide => names.(callerMethod := "")
  }

  function BaseLabels(names: Names): Labels {
    map[CallerService := names.callerService, CallerMethod := names.callerMethod,
        CalleeService := names.calleeService, CalleeMethod := names.calleeMethod]
  }

  /** The labels without those of the result. */
  function Base(labels: Labels): Labels {
    labels - {Code, CodeType, CodeDesc}
  }

  /** The framework's code, or the function's if the framework succeeded. */
  function ReturnCode(codes: RetCodes, frameworkRet: T.Int32, funcRet: T.Int32): T.Int32 {
    if frameworkRet == codes.success then funcRet else frameworkRet
  }

  lemma BaseLabelsAreInjective(a: Names, b: Names)
    requires BaseLabels(a) == BaseLabels(b)
    ensures a == b
  {
    assert BaseLabels(a)[CallerService] == BaseLabels(b)[CallerService];
    assert BaseLabels(a)[CallerMethod] == BaseLabels(b)[CallerMethod];
    assert BaseLabels(a)[CalleeService] == BaseLabels(b)[CalleeService];
    assert BaseLabels(a)[CalleeMethod] == BaseLabels(b)[CalleeMethod];
  }

  /** Writing a result over the labels of a call hides none of its names. */
  lemma ResultKeepsBase(names: Names, code: T.Int32, result: CallResult)
    ensures Base(WithResult(BaseLabels(names), code, result)) == BaseLabels(names)
  {
  }

  // ---------------------------------------------------------------------------------------------
  // Any number of calls, their reports interleaved
  // ---------------------------------------------------------------------------------------------

  /** A call has been counted as started; its latency has been observed too; its result has been counted
      too. */
  datatype Phase = Started | Observed | Handled

  /** `code` is the return code the call was handled with. */
  datatype Call = Call(side: Side, names: Names, phase: Phase, code: T.Option<T.Int32>)

  datatype World = World(calls: map<nat, Call>, families: Families)

  /** The reports of the filters, one event each. `code` and `result` are what the classification of the
      call's outcome gave. */
  datatype Event =
    | ReportStarted(id: nat, side: Side, names: Names)
    | ReportSeconds(id: nat, cost: int)
    | ReportHandled(id: nat, code: T.Int32, result: CallResult)

  /** A finish follows its own start and reports the seconds before the total. */
  ghost predicate Enabled(w: World, e: Event) {
    match e
    case ReportStarted(id, _, _) => id !in w.calls
    case ReportSeconds(id, _) => id in w.calls && w.calls[id].phase == Started
    case ReportHandled(id, _, _) => id in w.calls && w.calls[id].phase == Observed
  }

  function Step(w: World, e: Event): World {
    match e
    case ReportStarted(id, side, names) =>
      World(w.calls[id := Call(side, names, Started, T.None)],
            Report(w.families, StartedCount(side), BaseLabels(names), 1))
    case ReportSeconds(id, cost) =>
      if id !in w.calls then w
      else
        var c := w.calls[id];
        World(w.calls[id := c.(phase := Observed)], Report(w.families, HandledTime(c.side), BaseLabels(c.names), cost))
    case ReportHandled(id, code, result) =>
      if id !in w.calls then w
      else
        var c := w.calls[id];
        World(w.calls[id := c.(phase := Handled, code := T.Some(code))],
              Report(w.families, HandledCount(c.side), WithResult(BaseLabels(c.names), code, result), 1))
  }

  const EMPTY := World(map[], map[])

  function Run(events: seq<Event>): World {
    if events == [] then EMPTY else Step(Run(events[..|events| - 1]), events[|events| - 1])
  }

  ghost predicate IsRun(events: seq<Event>) {
    forall k :: 0 <= k < |events| ==> Enabled(Run(events[..k]), events[k])
  }

  // ---------------------------------------------------------------------------------------------
  // Sums over a family
  // ---------------------------------------------------------------------------------------------

  ghost function SumOver(family: Family, keys: set<Labels>): nat {
    if keys == {} then 0
    else
      var k :| k in keys;
      Value(family, k) + SumOver(family, keys - {k})
  }

  /** The order of summation does not matter. */
  lemma {:induction false} SumPick(family: Family, keys: set<Labels>, k: Labels)
    requires k in keys
    ensures SumOver(family, keys) == Value(family, k) + SumOver(family, keys - {k})
    decreases keys
  {
    var j :| j in keys && SumOver(family, keys) == Value(family, j) + SumOver(family, keys - {j});
    if j != k {
      SumPick(family, keys - {j}, k);
      SumPick(family, keys - {k}, j);
      assert keys - {j} - {k} == keys - {k} - {j};
    }
  }

  lemma {:induction false} SumDependsOnValues(f: Family, g: Family, keys: set<Labels>)
    requires forall k :: k in keys ==> Value(f, k) == Value(g, k)
    ensures SumOver(f, keys) == SumOver(g, keys)
    decreases keys
  {
    if keys != {} {
      var k :| k in keys;
      SumPick(f, keys, k);
      SumPick(g, keys, k);
      SumDependsOnValues(f, g, keys - {k});
    }
  }

  /** The labels name the given call, and its return code if one is given. */
  predicate Selected(labels: Labels, names: Names, code: T.Option<T.Int32>) {
    && Base(labels) == BaseLabels(names)
    && (code.Some? ==> Code in labels && labels[Code] == ToString(code.value))
  }

  ghost function KeysOf(family: Family, names: Names, code: T.Option<T.Int32>): set<Labels> {
    set k | k in family && Selected(k, names, code)
  }

  /** The total of a family for the given names, over all results or over those with the given code. */
  ghost function Total(family: Family, names: Names, code: T.Option<T.Int32>): nat {
    SumOver(family, KeysOf(family, names, code))
  }

  lemma TotalAfterObserving(family: Family, labels: Labels, value: int, names: Names, code: T.Option<T.Int32>)
    ensures Total(Observe(family, labels, value), names, code) ==
            Total(family, names, code) + if Selected(labels, names, code) then 1 else 0
  {
    var after := Observe(family, labels, value);
    var keys := KeysOf(family, names, code);
    if Selected(labels, names, code) {
      assert KeysOf(after, names, code) == keys + {labels};
      SumPick(after, keys + {labels}, labels);
      assert keys + {labels} - {labels} == keys - {labels};
      SumDependsOnValues(after, family, keys - {labels});
      if labels in keys {
        SumPick(family, keys, labels);
      } else {
        assert keys - {labels} == keys;
      }
    } else {
      assert KeysOf(after, names, code) == keys;
      SumDependsOnValues(after, family, keys);
    }
  }

  // ---------------------------------------------------------------------------------------------
  // Conservation
  // ---------------------------------------------------------------------------------------------

  /** The calls of one side with the given names that are in one of the phases. */
  ghost function Calls(w: World, side: Side, names: Names, phases: set<Phase>): set<nat> {
    set id | id in w.calls && w.calls[id].side == side && w.calls[id].names == names && w.calls[id].phase in phases
  }

  ghost function StartedTotal(w: World, side: Side, names: Names): nat {
    Value(FamilyOf(w.families, StartedCount(side)), BaseLabels(names))
  }

  ghost function SecondsCount(w: World, side: Side, names: Names): nat {
    Value(FamilyOf(w.families, HandledTime(side)), BaseLabels(names))
  }

  ghost function HandledTotal(w: World, side: Side, names: Names): nat {
    Total(FamilyOf(w.families, HandledCount(side)), names, T.None)
  }

  ghost predicate InvFor(w: World, side: Side, names: Names) {
    && StartedTotal(w, side, names) == |Calls(w, side, names, {Started, Observed, Handled})|
    && SecondsCount(w, side, names) == |Calls(w, side, names, {Observed, Handled})|
    && HandledTotal(w, side, names) == |Calls(w, side, names, {Handled})|
  }

  ghost predicate Counts(c: Call, side: Side, names: Names, phases: set<Phase>) {
    c.side == side && c.names == names && c.phase in phases
  }

  /** Setting one call changes a count by that call alone. */
  lemma CountAfterSetting(w: World, w': World, id: nat, c: Call, side: Side, names: Names, phases: set<Phase>)
    requires w'.calls == w.calls[id := c]
    ensures |Calls(w', side, names, phases)| ==
            |Calls(w, side, names, phases)|
            - (if id in w.calls && Counts(w.calls[id], side, names, phases) then 1 else 0)
            + (if Counts(c, side, names, phases) then 1 else 0)
  {
    var before, after := Calls(w, side, names, phases), Calls(w', side, names, phases);
    assert before - {id} == after - {id} by {
      forall k | k != id ensures k in before <==> k in after {
        assert k in w.calls <==> k in w'.calls;
      }
    }
    assert id in before <==> id in w.calls && Counts(w.calls[id], side, names, phases);
    assert id in after <==> Counts(c, side, names, phases);
    SizeAfter(before, after, id);
  }

  /** Two sets that differ in one element at most. */
  lemma SizeAfter(before: set<nat>, after: set<nat>, id: nat)
    requires before - {id} == after - {id}
    ensures |after| == |before| - (if id in before then 1 else 0) + (if id in after then 1 else 0)
  {
    SizeWithout(before, id);
    SizeWithout(after, id);
  }

  lemma SizeWithout(s: set<nat>, id: nat)
    ensures |s - {id}| == |s| - if id in s then 1 else 0
  {
    if id !in s {
      assert s - {id} == s;
    }
  }

  /** A report moves the metrics of one side and one quadruple of names only. */
  lemma MetricsAfterReport(w: World, w': World, t: ReportType, labels: Labels, value: int, side: Side, names: Names)
    requires w'.families == Report(w.families, t, labels, value)
    ensures StartedTotal(w', side, names) ==
            StartedTotal(w, side, names) + if t == StartedCount(side) && labels == BaseLabels(names) then 1 else 0
    ensures SecondsCount(w', side, names) ==
            SecondsCount(w, side, names) + if t == HandledTime(side) && labels == BaseLabels(names) then 1 else 0
    ensures HandledTotal(w', side, names) ==
            HandledTotal(w, side, names) + if t == HandledCount(side) && Base(labels) == BaseLabels(names) then 1 else 0
  {
    TotalAfterObserving(FamilyOf(w.families, t), labels, value, names, T.None);
  }

  lemma SameNamesIff(a: Names, b: Names)
    ensures BaseLabels(a) == BaseLabels(b) <==> a == b
  {
    if BaseLabels(a) == BaseLabels(b) {
      BaseLabelsAreInjective(a, b);
    }
  }

  lemma StepKeepsInv(w: World, e: Event, side: Side, names: Names)
    requires Enabled(w, e) && InvFor(w, side, names)
    ensures InvFor(Step(w, e), side, names)
  {
    var w' := Step(w, e);
    var c := w'.calls[e.id];
    SameNamesIff(c.names, names);
    CountAfterSetting(w, w', e.id, c, side, names, {Started, Observed, Handled});
    CountAfterSetting(w, w', e.id, c, side, names, {Observed, Handled});
    CountAfterSetting(w, w', e.id, c, side, names, {Handled});
    match e
    case ReportStarted(_, s, m) =>
      MetricsAfterReport(w, w', StartedCount(s), BaseLabels(m), 1, side, names);
    case ReportSeconds(_, cost) =>
      MetricsAfterReport(w, w', HandledTime(c.side), BaseLabels(c.names), cost, side, names);
    case ReportHandled(_, code, result) =>
      ResultKeepsBase(c.names, code, result);
      MetricsAfterReport(w, w', HandledCount(c.side), WithResult(BaseLabels(c.names), code, result), 1, side, names);
  }

  lemma PrefixIsRun(events: seq<Event>, n: nat)
    requires IsRun(events) && n < |events|
    ensures IsRun(events[..n]) && Enabled(Run(events[..n]), events[n])
  {
    forall k | 0 <= k < n ensures Enabled(Run(events[..n][..k]), events[..n][k]) {
      assert events[..n][..k] == events[..k];
    }
  }

  lemma {:induction false} InvHolds(events: seq<Event>, side: Side, names: Names)
    requires IsRun(events)
    ensures InvFor(Run(events), side, names)
    decreases |events|
  {
    if events == [] {
      assert KeysOf(map[], names, T.None) == {};
    } else {
      var n := |events| - 1;
      var rest, e := events[..n], events[n];
      PrefixIsRun(events, n);
      InvHolds(rest, side, names);
      StepKeepsInv(Run(rest), e, side, names);
    }
  }

  /** The results counted, over all codes, and the calls between their two last reports make up the
      latencies observed; those and the calls started but not yet observed make up the calls started. */
  ghost predicate Balanced(w: World, side: Side, names: Names) {
    && HandledTotal(w, side, names) + |Calls(w, side, names, {Observed})| == SecondsCount(w, side, names)
    && SecondsCount(w, side, names) + |Calls(w, side, names, {Started})| == StartedTotal(w, side, names)
  }

  /** In every interleaving the metrics of each side balance for each four names. */
  lemma CallsAreConserved(events: seq<Event>, side: Side, names: Names)
    requires IsRun(events)
    ensures Balanced(Run(events), side, names)
  {
    InvHolds(events, side, names);
    InvBalances(Run(events), side, names);
  }

  lemma InvBalances(w: World, side: Side, names: Names)
    requires InvFor(w, side, names)
    ensures Balanced(w, side, names)
  {
    assert Calls(w, side, names, {Observed, Handled}) ==
           Calls(w, side, names, {Observed}) + Calls(w, side, names, {Handled});
    assert Calls(w, side, names, {Started, Observed, Handled}) ==
           Calls(w, side, names, {Started}) + Calls(w, side, names, {Observed, Handled});
  }

  // ---------------------------------------------------------------------------------------------
  // Conservation per return code
  // ---------------------------------------------------------------------------------------------

  predicate HandledWith(c: Call, side: Side, names: Names, code: T.Int32) {
    c.side == side && c.names == names && c.phase == Handled && c.code == T.Some(code)
  }

  ghost function CallsWith(w: World, side: Side, names: Names, code: T.Int32): set<nat> {
    set id | id in w.calls && HandledWith(w.calls[id], side, names, code)
  }

  /** The results counted under the label of the given code, whatever their type and description. */
  ghost function CodeTotal(w: World, side: Side, names: Names, code: T.Int32): nat {
    Total(FamilyOf(w.families, HandledCount(side)), names, T.Some(code))
  }

  /** A result is counted under the label of its own code only: the labels of codes are distinct. */
  lemma ResultIsSelectedIff(names: Names, code: T.Int32, result: CallResult, names': Names, code': T.Int32)
    ensures Selected(WithResult(BaseLabels(names), code, result), names', T.Some(code'))
       <==> names == names' && code == code'
  {
    ResultKeepsBase(names, code, result);
    SameNamesIff(names, names');
    if ToString(code) == ToString(code') {
      CodeLabelsAreDistinct(code, code');
    }
  }

  lemma CodeTotalAfterReport(w: World, w': World, t: ReportType, labels: Labels, value: int, side: Side, names: Names, code: T.Int32)
    requires w'.families == Report(w.families, t, labels, value)
    ensures CodeTotal(w', side, names, code) ==
            CodeTotal(w, side, names, code)
            + if t == HandledCount(side) && Selected(labels, names, T.Some(code)) then 1 else 0
  {
    TotalAfterObserving(FamilyOf(w.families, t), labels, value, names, T.Some(code));
  }

  lemma CodeCountAfterSetting(w: World, w': World, id: nat, c: Call, side: Side, names: Names, code: T.Int32)
    requires w'.calls == w.calls[id := c]
    ensures |CallsWith(w', side, names, code)| ==
            |CallsWith(w, side, names, code)|
            - (if id in w.calls && HandledWith(w.calls[id], side, names, code) then 1 else 0)
            + (if HandledWith(c, side, names, code) then 1 else 0)
  {
    var before, after := CallsWith(w, side, names, code), CallsWith(w', side, names, code);
    assert before - {id} == after - {id} by {
      forall k | k != id ensures k in before <==> k in after {
        assert k in w.calls <==> k in w'.calls;
      }
    }
    SizeAfter(before, after, id);
  }

  lemma StepKeepsCodeTotal(w: World, e: Event, side: Side, names: Names, code: T.Int32)
    requires Enabled(w, e) && CodeTotal(w, side, names, code) == |CallsWith(w, side, names, code)|
    ensures CodeTotal(Step(w, e), side, names, code) == |CallsWith(Step(w, e), side, names, code)|
  {
    var w' := Step(w, e);
    var c := w'.calls[e.id];
    CodeCountAfterSetting(w, w', e.id, c, side, names, code);
    match e
    case ReportStarted(_, s, m) =>
      CodeTotalAfterReport(w, w', StartedCount(s), BaseLabels(m), 1, side, names, code);
    case ReportSeconds(_, cost) =>
      CodeTotalAfterReport(w, w', HandledTime(c.side), BaseLabels(c.names), cost, side, names, code);
    case ReportHandled(_, own, result) =>
      ResultIsSelectedIff(c.names, own, result, names, code);
      CodeTotalAfterReport(w, w', HandledCount(c.side), WithResult(BaseLabels(c.names), own, result), 1, side, names, code);
  }

  /** In every interleaving, for each side, names and return code, handled_total over the label sets with that
      code is the number of calls handled with that code. */
  lemma {:induction false} CodesAreConserved(events: seq<Event>, side: Side, names: Names, code: T.Int32)
    requires IsRun(events)
    ensures CodeTotal(Run(events), side, names, code) == |CallsWith(Run(events), side, names, code)|
    decreases |events|
  {
    if events == [] {
      assert KeysOf(map[], names, T.Some(code)) == {};
    } else {
      var n := |events| - 1;
      PrefixIsRun(events, n);
      CodesAreConserved(events[..n], side, names, code);
      StepKeepsCodeTotal(Run(events[..n]), events[n], side, names, code);
    }
  }

  /** The latencies reported for calls of one side with the given names, in order. */
  function Costs(events: seq<Event>, side: Side, names: Names): seq<int> {
    if events == [] then []
    else
      var rest, e := events[..|events| - 1], events[|events| - 1];
      Costs(rest, side, names) +
      (if e.ReportSeconds? && e.id in Run(rest).calls
          && Run(rest).calls[e.id].side == side && Run(rest).calls[e.id].names == names
       then [e.cost] else [])
  }

  /** In every interleaving a histogram has observed the latencies of its own calls, in order, and no other. */
  lemma {:induction false} SecondsAreTheCosts(events: seq<Event>, side: Side, names: Names)
    ensures Observations(FamilyOf(Run(events).families, HandledTime(side)), BaseLabels(names)) ==
            Costs(events, side, names)
    decreases |events|
  {
    if events != [] {
      var n := |events| - 1;
      SecondsAreTheCosts(events[..n], side, names);
      if events[n].ReportSeconds? && events[n].id in Run(events[..n]).calls {
        SameNamesIff(Run(events[..n]).calls[events[n].id].names, names);
      }
    }
  }

  /** When every call has been reported to the end, the three metrics agree. */
  lemma QuiescentMetricsAgree(events: seq<Event>, side: Side, names: Names)
    requires IsRun(events) && Quiescent(Run(events))
    ensures MetricsAgree(Run(events), side, names)
  {
    CallsAreConserved(events, side, names);
    assert Calls(Run(events), side, names, {Observed}) == {} && Calls(Run(events), side, names, {Started}) == {};
  }

  ghost predicate Quiescent(w: World) {
    forall id :: id in w.calls ==> w.calls[id].phase == Handled
  }

  ghost predicate MetricsAgree(w: World, side: Side, names: Names) {
    HandledTotal(w, side, names) == SecondsCount(w, side, names) == StartedTotal(w, side, names)
  }

  lemma RunOneMore(events: seq<Event>, e: Event)
    requires IsRun(events) && Enabled(Run(events), e)
    ensures IsRun(events + [e]) && Run(events + [e]) == Step(Run(events), e)
  {
    var longer := events + [e];
    assert longer[..|events|] == events;
    forall k | 0 <= k < |longer| ensures Enabled(Run(longer[..k]), longer[k]) {
      assert longer[..k] == events[..k];
    }
  }

  lemma TwoReports(w: World, id: nat, cost: int, code: T.Int32, result: CallResult)
    requires Enabled(w, ReportSeconds(id, cost))
    ensures var c := w.calls[id];
            var observed := Step(w, ReportSeconds(id, cost));
            && Enabled(observed, ReportHandled(id, code, result))
            && Step(observed, ReportHandled(id, code, result)) ==
               World(w.calls[id := c.(phase := Handled, code := T.Some(code))],
                     Report(Report(w.families, HandledTime(c.side), BaseLabels(c.names), cost),
                            HandledCount(c.side), WithResult(BaseLabels(c.names), code, result), 1))
  {
  }

  /** The filter after a call, uninterrupted: the two reports, one after the other, are a run that goes on, and
      leave the metrics with one more observation and one more result. */
  lemma FilterIsTwoReports(events: seq<Event>, id: nat, cost: int, code: T.Int32, result: CallResult)
    requires IsRun(events) && Enabled(Run(events), ReportSeconds(id, cost))
    ensures var c := Run(events).calls[id];
            var longer := events + [ReportSeconds(id, cost), ReportHandled(id, code, result)];
            && IsRun(longer)
            && Run(longer) == World(Run(events).calls[id := c.(phase := Handled, code := T.Some(code))],
                                    Report(Report(Run(events).families, HandledTime(c.side), BaseLabels(c.names), cost),
                                           HandledCount(c.side), WithResult(BaseLabels(c.names), code, result), 1))
  {
    var e, e' := ReportSeconds(id, cost), ReportHandled(id, code, result);
    TwoReports(Run(events), id, cost, code, result);
    RunOneMore(events, e);
    RunOneMore(events + [e], e');
    assert events + [e] + [e'] == events + [e, e'];
  }

  // ---------------------------------------------------------------------------------------------
  // The labels of a call, one by one
  // ---------------------------------------------------------------------------------------------

  /** The labels name the call, as its side does. */
  predicate NamedAs(labels: Labels, side: Side, names: Names) {
    && {CallerService, CallerMethod, CalleeService, CalleeMethod} <= labels.Keys
    && labels[CallerService] == names.callerService
    && labels[CallerMethod] == (if side == ServerSide then "" else names.callerMethod)
    && labels[CalleeService] == names.calleeService
    && labels[CalleeMethod] == names.calleeMethod
  }

  predicate BareLabels(labels: Labels, side: Side, names: Names) {
    NamedAs(labels, side, names) && labels.Keys == {CallerService, CallerMethod, CalleeService, CalleeMethod}
  }

  lemma BaseLabelsAreBare(side: Side, names: Names)
    ensures BareLabels(BaseLabels(ReportedNames(side, names)), side, names)
  {
  }

  /** The labels tell the return code, and what it means for this call. */
  ghost predicate CodedAs(labels: Labels, names: Names, codes: seq<MetricsCode>, defaults: map<T.Int32, CallResult>,
                          code: T.Int32) {
    && Code in labels && labels[Code] == ToString(code)
    && CodeType in labels && CodeDesc in labels
    && ResultOf(CallResult(labels[CodeType], labels[CodeDesc]), codes, defaults, code, names.calleeService,
                names.calleeMethod)
  }

  /** The labels under which a call is counted as handled: its names, and its code, which is the framework's
      unless that is success, and the function's then. */
  ghost predicate CountedAs(labels: Labels, side: Side, names: Names, retCodes: RetCodes, codes: seq<MetricsCode>,
                            defaults: map<T.Int32, CallResult>, frameworkRet: T.Int32, funcRet: T.Int32) {
    && NamedAs(labels, side, names)
    && (frameworkRet != retCodes.success ==> CodedAs(labels, names, codes, defaults, frameworkRet))
    && (frameworkRet == retCodes.success ==> CodedAs(labels, names, codes, defaults, funcRet))
  }

  lemma ResultLabelsCount(side: Side, names: Names, retCodes: RetCodes, codes: seq<MetricsCode>,
                          defaults: map<T.Int32, CallResult>, frameworkRet: T.Int32, funcRet: T.Int32)
    ensures var code := ReturnCode(retCodes, frameworkRet, funcRet);
            var result := Classify(codes, defaults, code, names.calleeService, names.calleeMethod);
            CountedAs(WithResult(BaseLabels(ReportedNames(side, names)), code, result), side, names, retCodes, codes,
                      defaults, frameworkRet, funcRet)
  {
    var code := ReturnCode(retCodes, frameworkRet, funcRet);
    LabelsAreThoseOfResult(BaseLabels(ReportedNames(side, names)), codes, defaults, code, names.calleeService,
                           names.calleeMethod);
  }

  /** Where no user entry answers and the defaults are loaded, a call is counted as a success exactly if both the
      framework and the function succeeded, and that code is not one of the timeouts. */
  lemma SuccessIff(labels: Labels, side: Side, names: Names, retCodes: RetCodes, codes: seq<MetricsCode>,
                   frameworkRet: T.Int32, funcRet: T.Int32)
    requires CountedAs(labels, side, names, retCodes, codes, DefaultTable(retCodes), frameworkRet, funcRet)
    requires NoneAnswers(codes, frameworkRet, names.calleeService, names.calleeMethod)
    requires NoneAnswers(codes, funcRet, names.calleeService, names.calleeMethod)
    ensures CodeType in labels
    ensures labels[CodeType] == "success"
       <==> && frameworkRet == retCodes.success && funcRet == retCodes.success
            && retCodes.success !in {retCodes.serverTimeout, retCodes.serverFullLinkTimeout,
                                     retCodes.clientInvokeTimeout, retCodes.clientFullLinkTimeout}
  {
    DefaultResults(retCodes, frameworkRet, names.calleeService, names.calleeMethod);
    DefaultResults(retCodes, funcRet, names.calleeService, names.calleeMethod);
    assert |"exception"| != |"success"|;
  }

  // ---------------------------------------------------------------------------------------------
  // The plugin and the filters, updating the metrics in place
  // ---------------------------------------------------------------------------------------------

  class OpenTelemetryMetrics {
    const enabled: bool
    const retCodes: RetCodes
    const codeMaps: CodeMaps
    var families: Families

    /** The reports of the filters so far. */
    ghost var events: seq<Event>

    /** The metrics are where a run of these reports gets to, so they balance as those of every run do;
        switched off, they stay empty. */
    ghost predicate Valid()
      reads this
    {
      if enabled then IsRun(events) && Run(events).families == families else events == [] && families == map[]
    }

    constructor (enabled: bool, retCodes: RetCodes, codeMaps: CodeMaps)
      ensures this.enabled == enabled && this.retCodes == retCodes && this.codeMaps == codeMaps && families == map[]
      ensures Valid() && events == []
    {
      this.enabled, this.retCodes, this.codeMaps := enabled, retCodes, codeMaps;
      families := map[];
      events := [];
    }

    /** `ModuleReport`: -1 and no effect when metrics are off or the report has no type of ours. */
    method ModuleReport(reportType: T.Option<ReportType>, info: ModuleInfo) returns (ret: int)
      modifies this`families
      ensures ret == (if enabled && reportType.Some? then 0 else -1)
      ensures families == if ret != 0 then old(families)
                          else Report(old(families), reportType.value, info.infos,
                                      if reportType.value.HandledTime? then info.costTime else 1)
    {
      if !enabled {
        return -1;
      }
      if reportType.None? {
        return -1;
      }
      var family := FamilyOf(families, reportType.value);
      if reportType.value.HandledTime? {
        family := Observe(family, info.infos, info.costTime);
      } else {
        family := Observe(family, info.infos, 1);
      }
      families := families[reportType.value := family];
      return 0;
    }

    /** The filter before the call: the labels are built afresh at each filter point. */
    method Before(ghost id: nat, side: Side, names: Names) returns (ghost labels: Labels)
      requires Valid() && id !in Run(events).calls
      modifies this`families, this`events
      ensures BareLabels(labels, side, names)
      ensures families == if enabled then Report(old(families), StartedCount(side), labels, 1) else old(families)
      ensures Valid()
      ensures events == old(events) + if enabled then [ReportStarted(id, side, ReportedNames(side, names))] else []
    {
      ghost var reported := ReportedNames(side, names);
      labels := BaseLabels(reported);
      BaseLabelsAreBare(side, names);
      if !enabled {
        return;
      }
      var info := NewInfo(side, names);
      var _ := ModuleReport(T.Some(StartedCount(side)), info);
      RunOneMore(events, ReportStarted(id, side, reported));
      events := events + [ReportStarted(id, side, reported)];
    }

    /** The labels both filter points begin with. */
    method NewInfo(side: Side, names: Names) returns (info: ModuleInfo)
      ensures fresh(info) && info.infos == BaseLabels(ReportedNames(side, names))
    {
      var labels: Labels := map[CallerService := names.callerService];
      if side == ClientSide {
        labels := labels[CallerMethod := names.callerMethod];
      } else {
        labels := labels[CallerMethod := ""];
      }
      labels := labels[CalleeService := names.calleeService];
      labels := labels[CalleeMethod := names.calleeMethod];
      info := new ModuleInfo(labels);
    }

    /** The filter after the call: the seconds are reported on the bare labels, then the result is written
        into the same label set and the total is reported on it. These are the two reports by which the call
        is conserved. */
    method After(ghost id: nat, side: Side, names: Names, cost: int, frameworkRet: T.Int32, funcRet: T.Int32)
      returns (ghost bare: Labels, ghost counted: Labels)
      requires codeMaps.Valid() && Valid()
      requires enabled ==>
                 id in Run(events).calls && Run(events).calls[id] == Call(side, ReportedNames(side, names), Started, T.None)
      modifies this`families, this`events
      ensures BareLabels(bare, side, names)
      ensures CountedAs(counted, side, names, retCodes, codeMaps.configured, codeMaps.defaultCodeMap, frameworkRet, funcRet)
      ensures families == if enabled
                          then Report(Report(old(families), HandledTime(side), bare, cost), HandledCount(side), counted, 1)
                          else old(families)
      ensures Valid()
      ensures var code := ReturnCode(retCodes, frameworkRet, funcRet);
              var result := Classify(codeMaps.configured, codeMaps.defaultCodeMap, code, names.calleeService,
                                     names.calleeMethod);
              events == old(events) + if enabled then [ReportSeconds(id, cost), ReportHandled(id, code, result)] else []
    {
      bare := BaseLabels(ReportedNames(side, names));
      ghost var ret := ReturnCode(retCodes, frameworkRet, funcRet);
      ghost var result := Classify(codeMaps.configured, codeMaps.defaultCodeMap, ret, names.calleeService,
                                   names.calleeMethod);
      counted := WithResult(bare, ret, result);
      BaseLabelsAreBare(side, names);
      ResultLabelsCount(side, names, retCodes, codeMaps.configured, codeMaps.defaultCodeMap, frameworkRet, funcRet);
      if !enabled {
        return;
      }
      var info := NewInfo(side, names);
      info.costTime := cost;
      var _ := ModuleReport(T.Some(HandledTime(side)), info);
      var code := frameworkRet;
      if code == retCodes.success {
        code := funcRet;
      }
      codeMaps.SetCallResult(code, names.calleeService, names.calleeMethod, info);
      var _ := ModuleReport(T.Some(HandledCount(side)), info);
      FilterIsTwoReports(events, id, cost, ret, result);
      events := events + [ReportSeconds(id, cost), ReportHandled(id, ret, result)];
    }
  }

  /** So the metrics of the plugin balance at any time between two filter points, in total and per code. */
  lemma PluginBalances(m: OpenTelemetryMetrics, side: Side, names: Names, code: T.Int32)
    requires m.enabled && m.Valid()
    ensures var w := World(Run(m.events).calls, m.families);
            && Balanced(w, side, names)
            && CodeTotal(w, side, names, code) == |CallsWith(w, side, names, code)|
  {
    CallsAreConserved(m.events, side, names);
    CodesAreConserved(m.events, side, names, code);
  }
}
