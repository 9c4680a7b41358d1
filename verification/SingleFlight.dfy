// The latest-wins request runner (frontend/src/lib/single-flight.ts).
//
// `run` suspends only while its task runs, so a call is two atomic steps, its start and its
// settlement; starts, settlements and aborts of different calls interleave.  An AbortController is
// an index into `aborted`.
module SingleFlight {
  import opened Options
  import opened Runs

  datatype Outcome = Resolved | RejectedLikeAbort | Rejected

  datatype Kind = Success | Aborted | Error

  // The runner's fields, and the signals they hand out.
  datatype Runner = Runner(activeController: Option<nat>, activeRequestId: nat, inFlight: bool, aborted: seq<bool>) {
    function AbortCurrent(): Runner {
      match activeController
      case None => this
      case Some(c) => if c < |aborted| then this.(aborted := aborted[c := true]) else this
    }

    predicate Skips(cancelPrevious: bool, skipIfInFlight: bool) {
      inFlight && !cancelPrevious && skipIfInFlight
    }

    function Started(cancelPrevious: bool): Runner {
      var r := if inFlight && cancelPrevious then AbortCurrent() else this;
      Runner(Some(|aborted|), activeRequestId + 1, true, r.aborted + [false])
    }

    function KindOf(id: nat, controller: nat, outcome: Outcome): Kind
      requires controller < |aborted|
    {
      if aborted[controller] || id != activeRequestId || outcome == RejectedLikeAbort then Aborted
      else if outcome == Resolved then Success else Error
    }

    function Settled(id: nat, controller: nat): Runner {
      if id != activeRequestId then this
      else this.(inFlight := false,
                 activeController := if activeController == Some(controller) then None else activeController)
    }
  }

  // What became of a request: its task still runs, or has settled and the call returned `kind`.
  // Times are numbers of steps.
  datatype Request = Running(controller: nat, start: nat) | Done(start: nat, end: nat, kind: Kind)

  // The request with id `k` is entry `k - 1` of `requests`.
  datatype System = System(runner: Runner, requests: seq<Request>, time: nat)

  datatype Action =
    | Start(cancelPrevious: bool, skipIfInFlight: bool)
    | Abort
    | Settle(id: nat, outcome: Outcome)

  function Step(s: System, a: Action): Option<System> {
    match a
    case Start(cancel, skip) =>
      if s.runner.Skips(cancel, skip) then Some(s.(time := s.time + 1))
      else
        Some(System(s.runner.Started(cancel), s.requests + [Running(|s.runner.aborted|, s.time)], s.time + 1))
    case Abort => Some(s.(runner := s.runner.AbortCurrent(), time := s.time + 1))
    case Settle(id, outcome) =>
      if !(1 <= id <= |s.requests|) || s.requests[id - 1].Done? then None
      else
        var request := s.requests[id - 1];
        if request.controller >= |s.runner.aborted| then None
        else
          var kind := s.runner.KindOf(id, request.controller, outcome);
          Some(System(s.runner.Settled(id, request.controller),
                      s.requests[id - 1 := Done(request.start, s.time, kind)], s.time + 1))
  }

  const IDLE := System(Runner(None, 0, false, []), [], 0)

  // ---- what every run keeps ----

  predicate InFlight(s: System, id: nat) {
    1 <= id <= |s.requests| && s.requests[id - 1].Running?
  }

  // The latest request is in flight exactly while its task has not settled, and its controller is
  // then the active one.
  ghost predicate Tracked(s: System) {
    var r := s.runner;
    && |r.aborted| == r.activeRequestId == |s.requests|
    && (r.inFlight <==> InFlight(s, r.activeRequestId))
    && r.activeController == (if r.inFlight then Some(r.activeRequestId - 1) else None)
    && (forall i :: 0 <= i < |s.requests| && s.requests[i].Running? ==> s.requests[i].controller == i)
  }

  // Requests start in the order of their ids, and nothing starts before a success is over that
  // was not started before it.
  ghost predicate Timed(s: System) {
    && (forall i :: 0 <= i < |s.requests| ==> s.requests[i].start < s.time)
    && (forall i, j :: 0 <= i < j < |s.requests| ==> s.requests[i].start < s.requests[j].start)
    && (forall i :: 0 <= i < |s.requests| && s.requests[i].Done? ==>
          s.requests[i].start < s.requests[i].end < s.time)
    && (forall i, j :: 0 <= i < j < |s.requests| && s.requests[i].Done? && s.requests[i].kind == Success ==>
          s.requests[i].end < s.requests[j].start)
  }

  ghost predicate Sound(s: System) {
    Tracked(s) && Timed(s)
  }

  lemma StepKeepsTracked(s: System, a: Action, t: System)
    requires Tracked(s) && Step(s, a) == Some(t)
    ensures Tracked(t)
  {
  }

  lemma StartKeepsTimed(s: System, a: Action, t: System)
    requires Tracked(s) && Timed(s) && a.Start? && Step(s, a) == Some(t)
    ensures Timed(t)
  {
    assert forall i :: 0 <= i < |s.requests| ==> t.requests[i] == s.requests[i];
  }

  lemma SettleKeepsTimed(s: System, a: Action, t: System)
    requires Tracked(s) && Timed(s) && a.Settle? && Step(s, a) == Some(t)
    ensures Timed(t)
  {
    assert forall i :: 0 <= i < |s.requests| ==> t.requests[i].start == s.requests[i].start;
    assert t.requests[a.id - 1].kind == Success ==> a.id == |s.requests|;
  }

  lemma StepKeepsSound(s: System, a: Action, t: System)
    requires Sound(s) && Step(s, a) == Some(t)
    ensures Sound(t)
  {
    StepKeepsTracked(s, a, t);
    if a.Start? {
      StartKeepsTimed(s, a, t);
    } else if a.Settle? {
      SettleKeepsTimed(s, a, t);
    }
  }

  lemma {:induction false} RunsStaySound(run: seq<Action>, s: System)
    requires Run(Step, IDLE, run) == Some(s)
    ensures Sound(s)
  {
    if run == [] {
    } else {
      hide Step, Sound;
      var u := Run(Step, IDLE, run[..|run| - 1]).value;
      RunsStaySound(run[..|run| - 1], u);
      StepKeepsSound(u, run[|run| - 1], s);
    }
  }

  // In every run `inFlight` says whether the latest request is unsettled.
  lemma InFlightIsLatest(run: seq<Action>, s: System)
    requires Run(Step, IDLE, run) == Some(s)
    ensures s.runner.inFlight <==> s.requests != [] && s.requests[|s.requests| - 1].Running?
  {
    RunsStaySound(run, s);
  }

  // Of two requests reported successful the later one started after the earlier one had settled:
  // their intervals do not overlap, and lie in the order of the ids.
  lemma SuccessesDoNotOverlap(run: seq<Action>, s: System, a: nat, b: nat)
    requires Run(Step, IDLE, run) == Some(s)
    requires 1 <= a < b <= |s.requests|
    requires s.requests[a - 1].Done? && s.requests[a - 1].kind == Success
    requires s.requests[b - 1].Done? && s.requests[b - 1].kind == Success
    ensures s.requests[a - 1].start < s.requests[a - 1].end < s.requests[b - 1].start < s.requests[b - 1].end
  {
    RunsStaySound(run, s);
  }

  // A request that runs but has been overtaken or aborted, or has been reported aborted.
  ghost predicate Doomed(s: System, id: nat) {
    && 1 <= id <= |s.requests|
    && (InFlight(s, id) ==>
          id < |s.requests| || (s.requests[id - 1].controller < |s.runner.aborted|
                                && s.runner.aborted[s.requests[id - 1].controller]))
    && (s.requests[id - 1].Done? ==> s.requests[id - 1].kind == Aborted)
  }

  // Such a request is never reported as anything but aborted, whatever its task does.
  lemma {:induction false} DoomedIsReportedAborted(
    before: seq<Action>, s: System, run: seq<Action>, t: System, id: nat)
    requires Run(Step, IDLE, before) == Some(s) && Run(Step, s, run) == Some(t) && Doomed(s, id)
    ensures Doomed(t, id)
    ensures t.requests[id - 1].Done? ==> t.requests[id - 1].kind == Aborted
  {
    if run == [] {
    } else {
      hide Step, Doomed, Timed;
      var u := Run(Step, s, run[..|run| - 1]).value;
      DoomedIsReportedAborted(before, s, run[..|run| - 1], u, id);
      RunConcat(Step, IDLE, before, run[..|run| - 1]);
      RunsStaySound(before + run[..|run| - 1], u);
      DoomedStaysDoomed(u, run[|run| - 1], t, id);
    }
  }

  lemma DoomedStaysDoomed(s: System, a: Action, t: System, id: nat)
    requires Tracked(s) && Doomed(s, id) && Step(s, a) == Some(t)
    ensures Doomed(t, id)
    ensures t.requests[id - 1].Done? ==> t.requests[id - 1].kind == Aborted
  {
  }

  // Conversely, the latest request settling unaborted is reported as its task ends.
  lemma UndoomedIsReportedAsItEnds(before: seq<Action>, s: System, id: nat, outcome: Outcome, t: System)
    requires Run(Step, IDLE, before) == Some(s) && Step(s, Settle(id, outcome)) == Some(t) && InFlight(s, id)
    ensures t.requests[id - 1].Done?
    ensures t.requests[id - 1].kind == Aborted <==> Doomed(s, id) || outcome == RejectedLikeAbort
    ensures t.requests[id - 1].kind == Success <==> !Doomed(s, id) && outcome == Resolved
  {
    RunsStaySound(before, s);
  }

  // ---- at most one live task ----

  ghost predicate Live(s: System, id: nat) {
    InFlight(s, id) && s.requests[id - 1].controller < |s.runner.aborted|
    && !s.runner.aborted[s.requests[id - 1].controller]
  }

  ghost predicate OnlyLatestLives(s: System) {
    forall id :: Live(s, id) ==> id == |s.requests|
  }

  // A start keeps every older task aborted exactly when it cancels, or is skipped, or finds the
  // latest task settled or aborted already.
  lemma StartKeepsOneLiveExactly(s: System, a: Action, t: System)
    requires Sound(s) && OnlyLatestLives(s) && a.Start? && Step(s, a) == Some(t)
    ensures OnlyLatestLives(t) <==> a.cancelPrevious || a.skipIfInFlight || !Live(s, |s.requests|)
  {
    var r := s.runner;
    if r.Skips(a.cancelPrevious, a.skipIfInFlight) {
      assert forall id :: Live(t, id) <==> Live(s, id);
    } else {
      assert forall id :: 1 <= id <= |s.requests| ==>
        (Live(t, id) <==> Live(s, id) && !(r.inFlight && a.cancelPrevious && id == |s.requests|));
      if Live(s, |s.requests|) && !a.cancelPrevious {
        assert Live(t, |s.requests|) && |s.requests| != |t.requests|;
      }
    }
  }

  // What a call does: it starts a request exactly unless one is in flight and it asks to be skipped
  // rather than to cancel it.  The new request is live; of the others it aborts the one in flight, if
  // asked to, and no other.
  lemma StartExactly(run: seq<Action>, s: System, a: Action, t: System)
    requires Run(Step, IDLE, run) == Some(s) && a.Start? && Step(s, a) == Some(t)
    ensures var n := |s.requests|;
      var skips := InFlight(s, n) && !a.cancelPrevious && a.skipIfInFlight;
      && (skips ==> t.requests == s.requests && t.runner == s.runner)
      && (!skips ==>
            && |t.requests| == n + 1 && t.requests[..n] == s.requests && Live(t, n + 1)
            && forall id :: 1 <= id <= n ==>
                 (Live(t, id) <==> Live(s, id) && !(a.cancelPrevious && id == n)))
  {
    RunsStaySound(run, s);
  }

  // What an abort does: the latest request, if it is in flight, is not live any more; all others are
  // as they were.
  lemma AbortExactly(run: seq<Action>, s: System, t: System)
    requires Run(Step, IDLE, run) == Some(s) && Step(s, Abort) == Some(t)
    ensures t.requests == s.requests
    ensures forall id :: Live(t, id) <==> Live(s, id) && id != |s.requests|
  {
    RunsStaySound(run, s);
  }

  lemma OthersKeepOneLive(s: System, a: Action, t: System)
    requires Sound(s) && OnlyLatestLives(s) && !a.Start? && Step(s, a) == Some(t)
    ensures OnlyLatestLives(t)
  {
    assert forall id :: Live(t, id) ==> Live(s, id);
  }

  // If every call cancels its predecessor or steps back for it, no two unaborted tasks are ever
  // running together, in whatever order they start, settle and are aborted.
  lemma {:induction false} AtMostOneLiveTask(run: seq<Action>, s: System)
    requires Run(Step, IDLE, run) == Some(s)
    requires forall k :: 0 <= k < |run| && run[k].Start? ==> run[k].cancelPrevious || run[k].skipIfInFlight
    ensures OnlyLatestLives(s)
    ensures forall i, j :: Live(s, i) && Live(s, j) ==> i == j
  {
    hide Step;
    if run == [] {
    } else {
      var u := Run(Step, IDLE, run[..|run| - 1]).value;
      var a := run[|run| - 1];
      AtMostOneLiveTask(run[..|run| - 1], u);
      RunsStaySound(run[..|run| - 1], u);
      if a.Start? {
        StartKeepsOneLiveExactly(u, a, s);
      } else {
        OthersKeepOneLive(u, a, s);
      }
    }
  }

  // ---- the object ----

  class SingleFlightRequestRunner {
    var activeController: Option<nat>
    var activeRequestId: nat
    var inFlight: bool
    var aborted: seq<bool>

    ghost function View(): Runner
      reads this
    {
      Runner(activeController, activeRequestId, inFlight, aborted)
    }

    ghost predicate Valid()
      reads this
    {
      activeController.Some? ==> activeController.value < |aborted|
    }

    constructor ()
      ensures Valid() && View() == IDLE.runner
    {
      activeController := None;
      activeRequestId := 0;
      inFlight := false;
      aborted := [];
    }

    method AbortCurrent()
      requires Valid()
      modifies this
      ensures Valid() && View() == old(View()).AbortCurrent()
    {
      if activeController.Some? {
        aborted := aborted[activeController.value := true];
      }
    }

    // `run`, up to the await of the task; `None` is the result `skipped`.
    method Begin(cancelPrevious: bool, skipIfInFlight: bool) returns (request: Option<(nat, nat)>)
      requires Valid()
      modifies this
      ensures Valid()
      ensures request == if old(View()).Skips(cancelPrevious, skipIfInFlight) then None
                         else Some((old(activeRequestId) + 1, |old(aborted)|))
      ensures View() == if request == None then old(View()) else old(View()).Started(cancelPrevious)
    {
      if inFlight {
        if cancelPrevious {
          AbortCurrent();
        } else if skipIfInFlight {
          return None;
        }
      }
      var controller := |aborted|;
      aborted := aborted + [false];
      var requestId := activeRequestId + 1;
      activeRequestId := requestId;
      activeController := Some(controller);
      inFlight := true;
      return Some((requestId, controller));
    }

    // `run`, once the task has settled.
    method End(requestId: nat, controller: nat, outcome: Outcome) returns (kind: Kind)
      requires Valid() && controller < |aborted|
      modifies this
      ensures Valid()
      ensures kind == old(View()).KindOf(requestId, controller, outcome)
      ensures View() == old(View()).Settled(requestId, controller)
    {
      if outcome == Resolved {
        kind := if aborted[controller] || requestId != activeRequestId then Aborted else Success;
      } else if aborted[controller] || requestId != activeRequestId || outcome == RejectedLikeAbort {
        kind := Aborted;
      } else {
        kind := Error;
      }
      if requestId == activeRequestId {
        inFlight := false;
        if activeController == Some(controller) {
          activeController := None;
        }
      }
    }
  }
}
