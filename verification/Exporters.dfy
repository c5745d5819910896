/** The gRPC exporters of `tracing/grpc_trace_exporter.cc` and `logging/grpc_log_exporter.cc` under
    concurrent exports and shutdowns. */
module Exporters {
  // ---------------------------------------------------------------------------------------------
  // One exporter, used by one thread
  // ---------------------------------------------------------------------------------------------

  datatype ExportResult = Success | Failure

  /** What `Export` does with a batch: the flag comes first, so that even an empty batch fails after
      shutdown, and only a non-empty batch is sent. */
  function ExportOutcome(isShutdown: bool, batch: nat, rpcOk: bool): (ExportResult, bool) {
    if isShutdown then (Failure, false)
    else if batch == 0 then (Success, false)
    else (if rpcOk then Success else Failure, true)
  }

  class GrpcExporter {
    var isShutdown: bool
    var sent: seq<nat> // the sizes of the batches sent

    constructor ()
      ensures !isShutdown && sent == []
    {
      isShutdown, sent := false, [];
    }

    method Export(batch: nat, rpcOk: bool) returns (result: ExportResult)
      modifies this`sent
      ensures var outcome := ExportOutcome(isShutdown, batch, rpcOk);
              result == outcome.0 && sent == old(sent) + if outcome.1 then [batch] else []
      ensures result == Success <==> !isShutdown && (batch == 0 || rpcOk)
      ensures sent == if !isShutdown && batch != 0 then old(sent) + [batch] else old(sent)
    {
      if isShutdown {
        return Failure;
      }
      if batch == 0 {
        return Success;
      }
      sent := sent + [batch];
      if !rpcOk {
        return Failure;
      }
      return Success;
    }

    method Shutdown() returns (done: bool)
      modifies this`isShutdown
      ensures isShutdown && done
    {
      isShutdown := true;
      return true;
    }
  }

  // ---------------------------------------------------------------------------------------------
  // Any number of exports and shutdowns, interleaved
  // ---------------------------------------------------------------------------------------------

  /** An export has read the flag and may still send, is waiting for its answer, or has returned. */
  datatype Progress = Passed(batch: nat) | Waiting | Returned(result: ExportResult)

  /** `sent` lists the exports whose request went out, in order. */
  datatype World = World(isShutdown: bool, exports: map<nat, Progress>, sent: seq<nat>)

  const EMPTY := World(false, map[], [])

  datatype Event = Begin(id: nat, batch: nat) | Send(id: nat) | Answer(id: nat, ok: bool) | ShutDown

  predicate Enabled(w: World, e: Event) {
    match e
    case Begin(id, _) => id !in w.exports
    case Send(id) => id in w.exports && w.exports[id].Passed?
    case Answer(id, _) => id in w.exports && w.exports[id].Waiting?
    case ShutDown => true
  }

  function Step(w: World, e: Event): World {
    match e
    case Begin(id, batch) =>
      w.(exports := w.exports[id := if w.isShutdown then Returned(Failure)
                                    else if batch == 0 then Returned(Success)
                                    else Passed(batch)])
    case Send(id) => w.(exports := w.exports[id := Waiting], sent := w.sent + [id])
    case Answer(id, ok) => w.(exports := w.exports[id := Returned(if ok then Success else Failure)])
    case ShutDown => w.(isShutdown := true)
  }

  /** An export nobody interrupts does what the method does: it sends exactly if it passes the check, and
      returns the same result. */
  lemma UninterruptedExport(w: World, id: nat, batch: nat, ok: bool)
    requires Enabled(w, Begin(id, batch))
    ensures var outcome := ExportOutcome(w.isShutdown, batch, ok);
            var begun := Step(w, Begin(id, batch));
            && (begun.exports[id].Passed? <==> outcome.1)
            && var done := if outcome.1 then Step(Step(begun, Send(id)), Answer(id, ok)) else begun;
               done.exports[id] == Returned(outcome.0) && done.sent == w.sent + if outcome.1 then [id] else []
  {
  }

  /** The answer to its request decides what an export returns, and concerns no other. */
  lemma AnswerDecides(w: World, id: nat, ok: bool)
    requires Enabled(w, Answer(id, ok))
    ensures var w' := Step(w, Answer(id, ok));
            && w'.isShutdown == w.isShutdown && w'.sent == w.sent && w'.exports.Keys == w.exports.Keys
            && (w'.exports[id] == Returned(Success) <==> ok) && (w'.exports[id] == Returned(Failure) <==> !ok)
            && forall other :: other in w.exports && other != id ==> w'.exports[other] == w.exports[other]
  {
  }

  function RunFrom(w: World, events: seq<Event>): World {
    if events == [] then w else Step(RunFrom(w, events[..|events| - 1]), events[|events| - 1])
  }

  /** The flag is set exactly from the first shutdown on, for good. */
  lemma {:induction false} FlagIff(w: World, events: seq<Event>)
    ensures RunFrom(w, events).isShutdown <==> w.isShutdown || ShutDown in events
    decreases |events|
  {
    if events != [] {
      var n := |events| - 1;
      FlagIff(w, events[..n]);
      assert events == events[..n] + [events[n]];
    }
  }

  ghost predicate IsRunFrom(w: World, events: seq<Event>) {
    forall k :: 0 <= k < |events| ==> Enabled(RunFrom(w, events[..k]), events[k])
  }

  lemma RunPrefix(w: World, events: seq<Event>, n: nat)
    requires IsRunFrom(w, events) && n <= |events|
    ensures IsRunFrom(w, events[..n])
  {
    forall k | 0 <= k < n ensures Enabled(RunFrom(w, events[..n][..k]), events[..n][k]) {
      assert events[..n][..k] == events[..k];
    }
  }

  /** The exports that have read the flag as unset and have not sent yet. */
  ghost function PastCheck(w: World): set<nat> {
    set id | id in w.exports && w.exports[id].Passed?
  }

  /** What a shut-down exporter still does, from state `w` on. The requests sent since and the exports
      still past the check are together, each counted once, those that were past it in `w`. */
  ghost predicate Winding(w: World, now: World) {
    && now.isShutdown
    && w.sent <= now.sent
    && multiset(now.sent[|w.sent|..]) + multiset(PastCheck(now)) == multiset(PastCheck(w))
    && (forall id :: id in w.exports ==> id in now.exports)
    && (forall id :: id in now.exports && id !in w.exports ==> now.exports[id] == Returned(Failure))
  }

  lemma WindingStep(w: World, now: World, e: Event)
    requires Winding(w, now) && Enabled(now, e)
    ensures Winding(w, Step(now, e))
  {
    var next := Step(now, e);
    var extra, extra' := now.sent[|w.sent|..], next.sent[|w.sent|..];
    if e.Send? {
      assert e.id in w.exports by {
        assert e.id in PastCheck(now);
      }
      assert extra' == extra + [e.id];
      assert PastCheck(next) == PastCheck(now) - {e.id};
      assert multiset(PastCheck(now)) == multiset(PastCheck(next)) + multiset{e.id};
    } else {
      assert extra' == extra && PastCheck(next) == PastCheck(now);
    }
  }

  lemma {:induction false} WindsDown(w: World, events: seq<Event>)
    requires w.isShutdown && IsRunFrom(w, events)
    ensures Winding(w, RunFrom(w, events))
    decreases |events|
  {
    if events == [] {
      assert w.sent[|w.sent|..] == [];
    } else {
      var n := |events| - 1;
      RunPrefix(w, events, n);
      WindsDown(w, events[..n]);
      WindingStep(w, RunFrom(w, events[..n]), events[n]);
    }
  }

  /** From a state with the flag set to a later one: the flag stays set; every request that still went
      out belongs to an export that had passed its check by then, each sends at most once, and the two
      kinds together are conserved; every export that started later has failed without sending. */
  ghost predicate WoundDown(w: World, now: World) {
    && now.isShutdown
    && w.sent <= now.sent
    && |now.sent| - |w.sent| + |PastCheck(now)| == |PastCheck(w)|
    && (forall k :: |w.sent| <= k < |now.sent| ==> now.sent[k] in PastCheck(w))
    && (forall id :: id in now.exports && id !in w.exports ==> now.exports[id] == Returned(Failure))
  }

  /** Whatever the threads do after a shutdown, the exporter only winds down. */
  lemma AfterShutdown(w: World, events: seq<Event>)
    requires w.isShutdown && IsRunFrom(w, events)
    ensures WoundDown(w, RunFrom(w, events))
  {
    WindsDown(w, events);
    var now := RunFrom(w, events);
    var extra := now.sent[|w.sent|..];
    SharesAddUp(extra, PastCheck(now), PastCheck(w));
    forall k | |w.sent| <= k < |now.sent| ensures now.sent[k] in PastCheck(w) {
      assert now.sent[k] == extra[k - |w.sent|];
    }
  }

  lemma SharesAddUp(extra: seq<nat>, left: set<nat>, all: set<nat>)
    requires multiset(extra) + multiset(left) == multiset(all)
    ensures |extra| + |left| == |all|
    ensures forall k :: 0 <= k < |extra| ==> extra[k] in all
  {
    assert |multiset(extra) + multiset(left)| == |extra| + |left|;
    forall k | 0 <= k < |extra| ensures extra[k] in all {
      assert extra[k] in multiset(extra);
      assert extra[k] in multiset(all);
    }
  }

  ghost predicate SentProperly(w: World) {
    && (forall i, j :: 0 <= i < j < |w.sent| ==> w.sent[i] != w.sent[j])
    && forall k :: 0 <= k < |w.sent| ==> w.sent[k] in w.exports && !w.exports[w.sent[k]].Passed?
  }

  /** From the start, no export ever sends twice. */
  lemma {:induction false} SendsOnce(events: seq<Event>)
    requires IsRunFrom(EMPTY, events)
    ensures SentProperly(RunFrom(EMPTY, events))
    decreases |events|
  {
    if events != [] {
      var n := |events| - 1;
      RunPrefix(EMPTY, events, n);
      SendsOnce(events[..n]);
      var w := RunFrom(EMPTY, events[..n]);
      assert Enabled(w, events[n]);
    }
  }
}
