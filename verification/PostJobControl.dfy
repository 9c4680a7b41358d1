// Stopping, pausing and resuming a post job while its workers run: what a stop prevents, when a
// worker can be asleep, and that the job can always be brought to its end.
module PostJobControl {
  import opened Options
  import opened Runs
  import opened JobStore
  import opened PostJobEngine
  import opened PostJobSafety

  lemma StepKeepsShaped(s: System, a: Action, t: System)
    requires Shaped(s) && Step(s, a) == Some(t)
    ensures Shaped(t) && t.ids == s.ids && t.job == s.job && |t.workers| == |s.workers|
  {
    hide Step;
    if a.Work? {
      WorkEffect(s, a.i, a.choice, t);
      WorkKeepsShaped(s, a.i, a.choice, t);
    } else if a.Join? {
      JoinKeepsSound(s, t);
    } else {
      OthersLeaveRows(s, a, t);
      OthersKeepShaped(s, a, t);
    }
  }

  lemma {:induction false} RunKeepsShaped(s: System, run: seq<Action>, t: System)
    requires Shaped(s) && Run(Step, s, run) == Some(t)
    ensures Shaped(t) && t.ids == s.ids && t.job == s.job && |t.workers| == |s.workers|
  {
    hide Step, Shaped;
    if run == [] {
    } else {
      var u := Run(Step, s, run[..|run| - 1]).value;
      RunKeepsShaped(s, run[..|run| - 1], u);
      StepKeepsShaped(u, run[|run| - 1], t);
    }
  }

  // The lemmas below ask for `Shaped`; every reachable state has it.
  lemma ReachableIsShaped(threshold: int, timeout: real, s: System, run: seq<Action>, t: System)
    requires Launched(s, threshold, timeout) && Run(Step, s, run) == Some(t)
    ensures Shaped(t)
  {
    assert Shaped(s);
    RunKeepsShaped(s, run, t);
  }

  // ---- stop ----

  // Only the runner lowers the flag, and only when nobody is left to read it.
  lemma StopFlagStays(s: System, a: Action, t: System)
    requires Shaped(s) && Step(s, a) == Some(t) && s.store.StopRequested(s.job)
    ensures t.store.StopRequested(t.job) || AllFinished(t)
  {
  }

  // Over every continuation of a run, the flag stays up until everybody has finished.
  lemma {:induction false} StopFlagStaysUp(s: System, run: seq<Action>, t: System)
    requires Shaped(s) && Run(Step, s, run) == Some(t) && s.store.StopRequested(s.job)
    ensures t.store.StopRequested(s.job) || AllFinished(t)
  {
    hide Step, Shaped;
    if run == [] {
    } else {
      var u := Run(Step, s, run[..|run| - 1]).value;
      StopFlagStaysUp(s, run[..|run| - 1], u);
      RunKeepsShaped(s, run[..|run| - 1], u);
      RunKeepsShaped(s, run, t);
      if AllFinished(u) {
        FinishedStaysFinished(u, run[|run| - 1], t);
      } else {
        StopFlagStays(u, run[|run| - 1], t);
      }
    }
  }

  lemma FinishedStaysFinished(s: System, a: Action, t: System)
    requires Step(s, a) == Some(t) && AllFinished(s)
    ensures AllFinished(t)
  {
    if a.Work? {
      WorkEffect(s, a.i, a.choice, t);
    } else if !a.Join? {
      OthersLeaveRows(s, a, t);
    }
  }

  // The worker will not start an upload any more.
  ghost predicate Barred(s: System, i: nat)
    requires i < |s.workers|
  {
    && !s.workers[i].dispatched
    && ((s.store.StopRequested(s.job) && BeforeSecondCheck(s.workers[i].pc)) || s.workers[i].pc == Finished)
  }

  lemma BarredStaysBarred(s: System, a: Action, t: System, i: nat)
    requires Shaped(s) && Step(s, a) == Some(t)
    requires i < |s.workers| && Barred(s, i)
    ensures i < |t.workers| && Barred(t, i)
  {
    StepKeepsShaped(s, a, t);
    if s.store.StopRequested(s.job) {
      StopFlagStays(s, a, t);
    }
    hide Shaped;
    if a.Work? {
      WorkEffect(s, a.i, a.choice, t);
      hide Step;
    } else if a.Join? {
      JoinKeepsWorkers(s, t);
      hide Step;
    } else {
      OthersLeaveRows(s, a, t);
      hide Step;
    }
  }

  lemma JoinKeepsWorkers(s: System, t: System)
    requires Step(s, Join) == Some(t)
    ensures t.workers == s.workers
  {
  }

  lemma {:induction false} BarredForEver(s: System, run: seq<Action>, t: System, i: nat)
    requires Shaped(s) && Run(Step, s, run) == Some(t)
    requires i < |s.workers| && Barred(s, i)
    ensures i < |t.workers| && Barred(t, i)
  {
    hide Step, Barred, Shaped;
    if run == [] {
    } else {
      var u := Run(Step, s, run[..|run| - 1]).value;
      BarredForEver(s, run[..|run| - 1], u, i);
      RunKeepsShaped(s, run[..|run| - 1], u);
      BarredStaysBarred(u, run[|run| - 1], t, i);
    }
  }

  // A barred worker ends by writing `skipped`.
  ghost predicate SkippedAtEnd(s: System, i: nat)
    requires i < |s.workers| && i < |Rows(s)|
  {
    s.workers[i].pc == Finished ==> StatusOf(s, i) == Skipped
  }

  lemma BarredEndsSkipped(s: System, a: Action, t: System, i: nat)
    requires Sound(s) && Step(s, a) == Some(t)
    requires i < |s.workers| && Barred(s, i) && SkippedAtEnd(s, i)
    ensures i < |t.workers| && i < |Rows(t)| && SkippedAtEnd(t, i)
  {
    BarredStaysBarred(s, a, t, i);
    hide Shaped;
    if a.Work? {
      WorkEffect(s, a.i, a.choice, t);
      WorkWritesOwnRow(s, a.i, a.choice, t);
      hide Step;
    } else if a.Join? {
      JoinKeepsSound(s, t);
      hide Step;
    } else {
      OthersLeaveRows(s, a, t);
      hide Step;
    }
  }

  lemma {:induction false} BarredRunEndsSkipped(s: System, run: seq<Action>, t: System, i: nat)
    requires Sound(s) && Run(Step, s, run) == Some(t)
    requires i < |s.workers| && Barred(s, i) && SkippedAtEnd(s, i)
    ensures i < |t.workers| && i < |Rows(t)| && SkippedAtEnd(t, i)
  {
    hide Step, Barred, SkippedAtEnd, RunnerFits, WaitsSoundly, Fits;
    if run == [] {
    } else {
      var u := Run(Step, s, run[..|run| - 1]).value;
      BarredRunEndsSkipped(s, run[..|run| - 1], u, i);
      BarredForEver(s, run[..|run| - 1], u, i);
      RunKeepsSound(s, run[..|run| - 1], u);
      BarredEndsSkipped(u, run[|run| - 1], t, i);
    }
  }

  // No worker starts an upload before it has written `uploading`.
  ghost predicate Idle(s: System) {
    forall i :: 0 <= i < |s.workers| && Untouched(s.workers[i].pc) ==> !s.workers[i].dispatched
  }

  lemma {:induction false} RunKeepsIdle(s: System, run: seq<Action>, t: System)
    requires Idle(s) && Run(Step, s, run) == Some(t)
    ensures Idle(t)
  {
    hide Step;
    if run == [] {
    } else {
      var u, a := Run(Step, s, run[..|run| - 1]).value, run[|run| - 1];
      RunKeepsIdle(s, run[..|run| - 1], u);
      if a.Work? {
        WorkEffect(u, a.i, a.choice, t);
      } else if a.Join? {
        JoinKeepsWorkers(u, t);
      } else {
        OthersLeaveRows(u, a, t);
      }
    }
  }

  ghost function Dispatched(s: System): set<nat> {
    set i: nat | i < |s.workers| && s.workers[i].dispatched
  }

  // The workers that may still start an upload although the stop flag is up.
  ghost function PastTheCheck(s: System): set<nat> {
    set i: nat | i < |s.workers| && !BeforeSecondCheck(s.workers[i].pc)
  }

  // From the moment the stop flag is up, a worker that has not passed its second check never
  // starts an upload, whatever the rows held and even if accounts are repeated; so the uploads
  // started from then on number at most the workers past that check.
  lemma StopIsObeyed(
    threshold: int, timeout: real, s0: System, before: seq<Action>, s: System, run: seq<Action>, t: System)
    requires Launched(s0, threshold, timeout)
    requires Run(Step, s0, before) == Some(s) && s.store.StopRequested(s.job)
    requires Run(Step, s, run) == Some(t)
    ensures |t.workers| == |s.workers|
    ensures forall i :: 0 <= i < |s.workers| && BeforeSecondCheck(s.workers[i].pc) ==> !t.workers[i].dispatched
    ensures Dispatched(t) - Dispatched(s) <= PastTheCheck(s) - Dispatched(s)
    ensures |Dispatched(t) - Dispatched(s)| <= |PastTheCheck(s) - Dispatched(s)|
  {
    ReachableIsShaped(threshold, timeout, s0, before, s);
    assert Idle(s0);
    hide Step, Launched, Shaped;
    RunKeepsIdle(s0, before, s);
    RunKeepsShaped(s, run, t);
    forall i | 0 <= i < |s.workers| && BeforeSecondCheck(s.workers[i].pc) ensures !t.workers[i].dispatched {
      BarredForEver(s, run, t, i);
    }
    SubsetSize(Dispatched(t) - Dispatched(s), PastTheCheck(s) - Dispatched(s));
  }

  // With distinct accounts each of these workers ends by writing `skipped` to its row.
  lemma StoppedWorkersEndSkipped(
    threshold: int, timeout: real, s0: System, before: seq<Action>, s: System, run: seq<Action>, t: System, i: nat)
    requires Launched(s0, threshold, timeout) && DistinctIds(Rows(s0))
    requires Run(Step, s0, before) == Some(s) && s.store.StopRequested(s.job)
    requires Run(Step, s, run) == Some(t) && i < |s.workers| && BeforeSecondCheck(s.workers[i].pc)
    ensures i < |t.workers| && i < |Rows(t)| && (t.workers[i].pc == Finished ==> StatusOf(t, i) == Skipped)
  {
    LaunchedIsSound(s0, threshold, timeout);
    hide Step, Launched, RunnerFits, WaitsSoundly;
    RunKeepsSound(s0, before, s);
    assert Fits(StatusOf(s, i), s.workers[i]);
    BarredRunEndsSkipped(s, run, t, i);
  }

  lemma {:induction false} SubsetSize(a: set<nat>, b: set<nat>)
    requires a <= b
    ensures |a| <= |b|
  {
    if a != {} {
      var x :| x in a;
      SubsetSize(a - {x}, b - {x});
    }
  }

  // ---- pause ----

  predicate Quiet(run: seq<Action>, job: string) {
    forall k :: 0 <= k < |run| ==> run[k] != Pause(job)
  }

  // A worker that will get to `wait_if_paused`, or is in it.
  predicate Exposed(s: System, i: nat)
    requires i < |s.workers|
  {
    var pc := s.workers[i].pc;
    pc.ReadEvent? || pc.TestEvent? || pc.EnterWait? || pc.Blocked?
    || (pc.FirstCheck? && !s.store.StopRequested(s.job))
  }

  ghost predicate CanBlock(s: System) {
    s.store.Paused(s.job) && exists i :: 0 <= i < |s.workers| && Exposed(s, i)
  }

  ghost predicate SomeoneBlocked(s: System) {
    exists i :: 0 <= i < |s.workers| && s.workers[i].pc.Blocked?
  }

  lemma BlockedMeansCanBlock(s: System)
    requires Shaped(s) && SomeoneBlocked(s)
    ensures CanBlock(s)
  {
    var i :| 0 <= i < |s.workers| && s.workers[i].pc.Blocked?;
    assert WaitsSoundly(s, s.workers[i].pc);
    assert Exposed(s, i);
  }

  // Nobody but `request_pause` of this job can make its event unset.
  lemma OnlyPausePauses(s: System, a: Action, t: System)
    requires Shaped(s) && Step(s, a) == Some(t) && a != Pause(s.job)
    ensures t.store.Paused(s.job) ==> s.store.Paused(s.job)
  {
    if a.Work? {
      WorkEffect(s, a.i, a.choice, t);
    }
  }

  lemma ExposureIsNotGained(s: System, a: Action, t: System, i: nat)
    requires Shaped(s) && Step(s, a) == Some(t) && i < |s.workers| && i < |t.workers|
    requires Exposed(t, i)
    ensures Exposed(s, i)
  {
    if s.store.StopRequested(s.job) {
      StopFlagStays(s, a, t);
    }
    if a.Work? {
      WorkEffect(s, a.i, a.choice, t);
    } else if a.Join? {
      JoinKeepsSound(s, t);
    } else {
      OthersLeaveRows(s, a, t);
    }
  }

  lemma QuietStepStaysFree(s: System, a: Action, t: System)
    requires Shaped(s) && Step(s, a) == Some(t) && a != Pause(s.job) && !CanBlock(s)
    ensures !CanBlock(t)
  {
    StepKeepsShaped(s, a, t);
    OnlyPausePauses(s, a, t);
    hide Step, Exposed;
    if CanBlock(t) {
      var i :| 0 <= i < |t.workers| && Exposed(t, i);
      ExposureIsNotGained(s, a, t, i);
    }
  }

  lemma {:induction false} QuietRunStaysFree(s: System, run: seq<Action>, t: System)
    requires Shaped(s) && Run(Step, s, run) == Some(t) && Quiet(run, s.job) && !CanBlock(s)
    ensures !CanBlock(t) && !SomeoneBlocked(t)
  {
    hide Step, CanBlock, Shaped;
    RunKeepsShaped(s, run, t);
    if run == [] {
    } else {
      var u := Run(Step, s, run[..|run| - 1]).value;
      QuietRunStaysFree(s, run[..|run| - 1], u);
      RunKeepsShaped(s, run[..|run| - 1], u);
      QuietStepStaysFree(u, run[|run| - 1], t);
    }
    if SomeoneBlocked(t) {
      BlockedMeansCanBlock(t);
    }
  }

  // An exposed worker of a paused job walks into the wait within four steps of its own.
  lemma {:induction false} ExposedWorkerBlocks(s: System, i: nat)
    requires Shaped(s) && s.store.Paused(s.job) && i < |s.workers| && Exposed(s, i)
    ensures exists run, t :: Run(Step, s, run) == Some(t) && Quiet(run, s.job) && SomeoneBlocked(t)
    decreases match s.workers[i].pc
              case FirstCheck => 4 case ReadEvent => 3 case TestEvent(_) => 2 case EnterWait(_) => 1 case _ => 0
  {
    if s.workers[i].pc.Blocked? {
      assert Run(Step, s, []) == Some(s) && Quiet([], s.job);
    } else {
      var a := Work(i, Choice(0.0, true, Uploaded));
      assert WaitsSoundly(s, s.workers[i].pc);
      var u := Step(s, a).value;
      StepKeepsShaped(s, a, u);
      ExposedWorkerBlocks(u, i);
      var run, t :| Run(Step, u, run) == Some(t) && Quiet(run, s.job) && SomeoneBlocked(t);
      RunCons(Step, s, a, u, run);
      assert Quiet([a] + run, s.job);
    }
  }

  // Without a further pause a worker is, or can yet be, asleep exactly when the job's event is
  // unset and some worker is exposed to it.
  lemma BlocksExactly(s: System)
    requires Shaped(s)
    ensures (exists run, t :: Run(Step, s, run) == Some(t) && Quiet(run, s.job) && SomeoneBlocked(t))
       <==> CanBlock(s)
  {
    if CanBlock(s) {
      var i :| 0 <= i < |s.workers| && Exposed(s, i);
      ExposedWorkerBlocks(s, i);
    } else {
      forall run, t | Run(Step, s, run) == Some(t) && Quiet(run, s.job)
        ensures !SomeoneBlocked(t)
      {
        QuietRunStaysFree(s, run, t);
      }
    }
  }

  // ---- stop and resume release ----

  // The job's event is replaced only after everybody has finished.
  lemma {:induction false} EventStays(s: System, run: seq<Action>, t: System, e: nat)
    requires Shaped(s) && Run(Step, s, run) == Some(t) && s.store.PauseEvent(s.job) == Some(e)
    ensures t.store.PauseEvent(t.job) == Some(e) || AllFinished(t)
  {
    if run == [] {
    } else {
      var u := Run(Step, s, run[..|run| - 1]).value;
      EventStays(s, run[..|run| - 1], u, e);
      RunKeepsShaped(s, run[..|run| - 1], u);
      EventStaysOneStep(u, run[|run| - 1], t, e);
    }
  }

  lemma EventStaysOneStep(s: System, a: Action, t: System, e: nat)
    requires Shaped(s) && Step(s, a) == Some(t)
    requires s.store.PauseEvent(s.job) == Some(e) || AllFinished(s)
    ensures t.store.PauseEvent(t.job) == Some(e) || AllFinished(t)
  {
    if a.Work? {
      WorkEffect(s, a.i, a.choice, t);
    } else if !a.Join? {
      OthersLeaveRows(s, a, t);
    }
  }

  // A stop raises the flag of its job alone, and like a resume takes over the job's event ...
  lemma StopTakesEventExactly(s: System, a: Action, j: string, t: System)
    requires (a == FlagStop(j) || a == ReadForResume(j)) && Step(s, a) == Some(t)
    ensures a == FlagStop(j) ==> t.store.StopRequested(j)
    ensures forall other :: other != j || a == ReadForResume(j) ==>
      (t.store.StopRequested(other) <==> s.store.StopRequested(other))
    ensures forall e: nat :: t.releases[e] == s.releases[e] + if s.store.PauseEvent(j) == Some(e) then 1 else 0
    ensures t.workers == s.workers && Rows(t) == Rows(s) && t.store.events == s.store.events
  {
    assert t.releases == ReadForRelease(s, j);
  }

  // ... which stays to be set until it is.
  lemma {:induction false} TakenEventIsSet(s: System, run: seq<Action>, t: System, e: nat)
    requires Run(Step, s, run) == Some(t) && e in s.releases && e < |s.store.events| && Release(e) !in run
    ensures e in t.releases && e < |t.store.events| && Step(t, Release(e)).Some?
  {
    hide Step;
    if run == [] {
      CanRelease(s, e);
    } else {
      var u, a := Run(Step, s, run[..|run| - 1]).value, run[|run| - 1];
      TakenEventIsSet(s, run[..|run| - 1], u, e);
      StillTaken(u, a, t, e);
      CanRelease(t, e);
    }
  }

  lemma CanRelease(s: System, e: nat)
    requires e in s.releases && e < |s.store.events|
    ensures Step(s, Release(e)).Some?
  {
  }

  lemma StillTaken(s: System, a: Action, t: System, e: nat)
    requires Step(s, a) == Some(t) && a != Release(e) && e in s.releases && e < |s.store.events|
    ensures e in t.releases && e < |t.store.events|
  {
    if a.Work? {
      WorkEffect(s, a.i, a.choice, t);
      hide Step;
    } else if !a.Join? {
      OthersGrowEvents(s, a, t);
    }
  }

  lemma NobodyIsExposedAtTheEnd(s: System, a: Action, t: System)
    requires AllFinished(s) && Step(s, a) == Some(t)
    ensures !CanBlock(t)
  {
    FinishedStaysFinished(s, a, t);
  }

  lemma ReleasingItsEventFrees(s: System, e: nat, t: System)
    requires s.store.PauseEvent(s.job) == Some(e) && Step(s, Release(e)) == Some(t)
    ensures !CanBlock(t)
  {
  }

  // `request_stop` and `request_resume` alike: once the thread that read the event has set it --
  // or has found none -- no worker is asleep, whatever happened between the read and the set.
  lemma ReleaseUnblocks(s: System, a: Action, s1: System, between: seq<Action>, s2: System, s3: System)
    requires Shaped(s) && (a == FlagStop(s.job) || a == ReadForResume(s.job)) && Step(s, a) == Some(s1)
    requires Run(Step, s1, between) == Some(s2)
    requires match s.store.PauseEvent(s.job)
             case None => between == [] && s3 == s2
             case Some(e) => Step(s2, Release(e)) == Some(s3)
    ensures Shaped(s3) && s3.job == s.job && !CanBlock(s3)
  {
    StepKeepsShaped(s, a, s1);
    RunKeepsShaped(s1, between, s2);
    ReadLeavesEvent(s, a, s1);
    hide Step, Shaped;
    match s.store.PauseEvent(s.job)
    case None =>
    case Some(e) =>
      EventStays(s1, between, s2, e);
      StepKeepsShaped(s2, Release(e), s3);
      if AllFinished(s2) {
        NobodyIsExposedAtTheEnd(s2, Release(e), s3);
      } else {
        ReleasingItsEventFrees(s2, e, s3);
      }
  }

  lemma ReadLeavesEvent(s: System, a: Action, t: System)
    requires (a == FlagStop(s.job) || a == ReadForResume(s.job)) && Step(s, a) == Some(t)
    ensures t.store.PauseEvent(t.job) == s.store.PauseEvent(s.job) && t.job == s.job
  {
  }

  // ... and none falls asleep, or can, before the next `request_pause`.
  lemma ReleasedStaysFree(
    s: System, a: Action, s1: System, between: seq<Action>, s2: System, s3: System, run: seq<Action>, t: System)
    requires Shaped(s) && (a == FlagStop(s.job) || a == ReadForResume(s.job)) && Step(s, a) == Some(s1)
    requires Run(Step, s1, between) == Some(s2)
    requires match s.store.PauseEvent(s.job)
             case None => between == [] && s3 == s2
             case Some(e) => Step(s2, Release(e)) == Some(s3)
    requires Run(Step, s3, run) == Some(t) && Quiet(run, s.job)
    ensures !CanBlock(t) && !SomeoneBlocked(t)
  {
    ReleaseUnblocks(s, a, s1, between, s2, s3);
    hide Step, Shaped, CanBlock;
    QuietRunStaysFree(s3, run, t);
  }

  // The order matters: a stop that finds no event and a pause right after it leave a stopped job
  // with a worker that goes to sleep until somebody resumes or stops it again.  It takes no more
  // than a job that has not been paused before and a worker at its first check, as at launch.
  lemma PauseAfterStopCanBlock(s: System) returns (run: seq<Action>, t: System)
    requires |s.workers| >= 1 && |s.ids| >= 1 && s.workers[0].pc == FirstCheck
    requires s.store.PauseEvent(s.job) == None && !s.store.StopRequested(s.job)
    ensures Run(Step, s, run) == Some(t) && FlagStop(s.job) in run
    ensures t.store.StopRequested(s.job) && CanBlock(t) && t.releases == s.releases
  {
    var a := Work(0, Choice(0.0, true, Uploaded));
    var s1 := WorkerReadsOn(s, a);
    var s2, s3 := StopThenPause(s1);
    run, t := [a, FlagStop(s.job), Pause(s.job)], s3;
    assert run[1] == FlagStop(s.job);
    hide *;
    RunThree(Step, s, a, s1, FlagStop(s.job), s2, Pause(s.job), s3);
  }

  lemma StopThenPause(s: System) returns (t: System, u: System)
    requires s.store.PauseEvent(s.job) == None && |s.workers| > 0 && s.workers[0].pc == ReadEvent
    ensures Step(s, FlagStop(s.job)) == Some(t) && Step(t, Pause(s.job)) == Some(u)
    ensures u.store.StopRequested(u.job) && CanBlock(u) && u.releases == s.releases && u.job == s.job
  {
    t := s.(store := s.store.RequestStop(s.job));
    u := t.(store := t.store.RequestPause(s.job));
    assert Exposed(u, 0);
  }

  lemma WorkerReadsOn(s: System, a: Action) returns (t: System)
    requires |s.workers| >= 1 && |s.ids| >= 1 && s.workers[0].pc == FirstCheck
    requires a == Work(0, Choice(0.0, true, Uploaded)) && !s.store.StopRequested(s.job)
    ensures Step(s, a) == Some(t) && |t.workers| == |s.workers| && t.workers[0].pc == ReadEvent
    ensures t == s.(workers := t.workers)
  {
    t := Step(s, a).value;
  }

  // ---- progress ----

  function Ahead(pc: Pc): nat {
    match pc
    case FirstCheck => 14
    case ReadEvent => 13
    case TestEvent(_) => 12
    case EnterWait(_) => 11
    case Blocked(_) => 10
    case SecondCheck => 9
    case AskBreaker => 8
    case LookUpClient => 7
    case WriteUploading => 6
    case Dispatch => 5
    case AwaitUpload => 4
    case WriteTimedOut => 3
    case WriteFailed(_) => 3
    case WriteSuccess => 3
    case RecordFailure(_) => 2
    case RecordSuccess => 2
    case Finished => 0
    case _ => 1
  }

  function TotalAhead(workers: seq<Worker>): nat {
    if workers == [] then 0 else TotalAhead(workers[..|workers| - 1]) + Ahead(workers[|workers| - 1].pc)
  }

  lemma {:induction false} TotalAheadMonotone(v: seq<Worker>, w: seq<Worker>)
    requires |v| == |w| && forall i :: 0 <= i < |v| ==> Ahead(w[i].pc) <= Ahead(v[i].pc)
    ensures TotalAhead(w) <= TotalAhead(v)
    ensures (exists i :: 0 <= i < |v| && Ahead(w[i].pc) < Ahead(v[i].pc)) ==> TotalAhead(w) < TotalAhead(v)
  {
    if v == [] {
    } else {
      var n := |v| - 1;
      TotalAheadMonotone(v[..n], w[..n]);
      if exists i :: 0 <= i < |v| && Ahead(w[i].pc) < Ahead(v[i].pc) {
        var i :| 0 <= i < |v| && Ahead(w[i].pc) < Ahead(v[i].pc);
        if i < n {
          assert Ahead(w[..n][i].pc) < Ahead(v[..n][i].pc);
        }
      }
    }
  }

  // Every step of a worker is one of a bounded number; nobody else's step puts a worker back.
  lemma StepsRunOut(s: System, a: Action, t: System)
    requires Step(s, a) == Some(t)
    ensures TotalAhead(t.workers) <= TotalAhead(s.workers)
    ensures a.Work? ==> TotalAhead(t.workers) < TotalAhead(s.workers)
  {
    if a.Work? {
      WorkEffect(s, a.i, a.choice, t);
      var w := s.workers[a.i];
      assert Ahead(AfterPc(w.pc, s, a.choice).value) < Ahead(w.pc);
      hide Step, AfterPc, Ahead;
      assert Ahead(t.workers[a.i].pc) < Ahead(s.workers[a.i].pc);
      TotalAheadMonotone(s.workers, t.workers);
    } else if a.Join? {
      assert t.workers == s.workers;
    } else {
      OthersLeaveRows(s, a, t);
      hide Step;
      TotalAheadMonotone(s.workers, t.workers);
    }
  }

  function WorkSteps(run: seq<Action>): nat {
    if run == [] then 0 else WorkSteps(run[..|run| - 1]) + (if run[|run| - 1].Work? then 1 else 0)
  }

  lemma {:induction false} WorkIsBounded(s: System, run: seq<Action>, t: System)
    requires Run(Step, s, run) == Some(t)
    ensures WorkSteps(run) + TotalAhead(t.workers) <= TotalAhead(s.workers)
  {
    hide Step;
    if run == [] {
    } else {
      var u := Run(Step, s, run[..|run| - 1]).value;
      WorkIsBounded(s, run[..|run| - 1], u);
      StepsRunOut(u, run[|run| - 1], t);
    }
  }

  lemma {:induction false} TotalAheadAtMost(workers: seq<Worker>)
    ensures TotalAhead(workers) <= 14 * |workers|
  {
    if workers == [] {
    } else {
      TotalAheadAtMost(workers[..|workers| - 1]);
    }
  }

  // No run, however long, contains more than fourteen steps of each worker.
  lemma WorkersCannotLoop(s: System, run: seq<Action>, t: System)
    requires Run(Step, s, run) == Some(t)
    ensures WorkSteps(run) <= 14 * |s.workers|
  {
    WorkIsBounded(s, run, t);
    TotalAheadAtMost(s.workers);
  }

  lemma UnblockedWorkerCanStep(s: System, i: nat, c: Choice)
    requires Shaped(s) && i < |s.workers|
    requires s.workers[i].pc != Finished && !s.workers[i].pc.Blocked?
    ensures Step(s, Work(i, c)).Some?
  {
    assert WaitsSoundly(s, s.workers[i].pc);
  }

  predicate OnlyWorkersAndRunner(run: seq<Action>) {
    forall k :: 0 <= k < |run| ==> run[k].Work? || run[k].Join?
  }

  lemma {:induction false} FinishFrom(s: System)
    requires AllFinished(s)
    ensures exists run, t :: Run(Step, s, run) == Some(t) && t.runner.Closed? && OnlyWorkersAndRunner(run)
    decreases match s.runner case Joining => 3 case Counted(_) => 2 case Cleared(_) => 1 case Closed(_) => 0
  {
    if s.runner.Closed? {
      assert Run(Step, s, []) == Some(s) && OnlyWorkersAndRunner([]);
    } else {
      var u := Step(s, Join).value;
      FinishFrom(u);
      var run, t :| Run(Step, u, run) == Some(t) && t.runner.Closed? && OnlyWorkersAndRunner(run);
      RunCons(Step, s, Join, u, run);
      assert OnlyWorkersAndRunner([Join] + run);
    }
  }

  lemma SomeWorkerGoesOn(s: System) returns (a: Action, t: System)
    requires Shaped(s) && !CanBlock(s) && !AllFinished(s)
    ensures Step(s, a) == Some(t) && a.Work? && a != Pause(s.job)
  {
    var i :| 0 <= i < |s.workers| && s.workers[i].pc != Finished;
    a := Work(i, Choice(0.0, true, Uploaded));
    if s.workers[i].pc.Blocked? {
      BlockedMeansCanBlock(s);
    }
    UnblockedWorkerCanStep(s, i, a.choice);
    t := Step(s, a).value;
  }

  // A job with nobody asleep or about to be reaches its tally by the steps of its own threads.
  lemma {:induction false} JobCanFinish(s: System)
    requires Shaped(s) && !CanBlock(s)
    ensures exists run, t :: Run(Step, s, run) == Some(t) && t.runner.Closed? && OnlyWorkersAndRunner(run)
    decreases TotalAhead(s.workers)
  {
    if AllFinished(s) {
      FinishFrom(s);
    } else {
      hide *;
      var a, u := SomeWorkerGoesOn(s);
      StepKeepsShaped(s, a, u);
      QuietStepStaysFree(s, a, u);
      StepsRunOut(s, a, u);
      JobCanFinish(u);
      var run, t :| Run(Step, u, run) == Some(t) && t.runner.Closed? && OnlyWorkersAndRunner(run);
      RunCons(Step, s, a, u, run);
      FirstOfMany(a, run);
    }
  }

  lemma FirstOfMany(a: Action, run: seq<Action>)
    requires OnlyWorkersAndRunner(run) && (a.Work? || a.Join?)
    ensures OnlyWorkersAndRunner([a] + run)
  {
  }
}
