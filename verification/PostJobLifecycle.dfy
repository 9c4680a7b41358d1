// What becomes of one row over a run, and of the rows a retried job starts with.
//
// A retry keeps the rows that succeeded and promises that their accounts are not posted to again.
// The executor submits a worker for every row and never looks at the row's status; what keeps a
// second upload from succeeding is that the first run has removed the media.
module PostJobLifecycle {
  import opened Options
  import opened Runs
  import opened JobStore
  import opened PostJobEngine
  import opened PostJobSafety
  import opened PostJobControl
  import opened PostJobRetry
  import opened PostJobWaiting
  import SyncBreaker

  predicate Edge(from: RowStatus, to: RowStatus) {
    || from == to
    || (from == Pending && (to == Skipped || to == Failed || to == Uploading))
    || (from == Uploading && (to == Success || to == Failed))
  }

  // Edges taken one after the other.
  predicate Path(from: RowStatus, to: RowStatus) {
    Edge(from, to) || (from == Pending && to == Success)
  }

  // A row that its worker can take along the edges: a pending one, or one already `skipped` of a job
  // that is stopped before the worker's last check.
  ghost predicate Orderly(s: System, k: nat)
    requires k < |Rows(s)| && k < |s.workers|
  {
    OrderlyAt(StatusOf(s, k), s.workers[k].pc, s.store.StopRequested(s.job))
  }

  // `stopped` is the stop flag.
  predicate OrderlyAt(st: RowStatus, pc: Pc, stopped: bool) {
    !Untouched(pc) || st == Pending || (st == Skipped && stopped && BeforeSecondCheck(pc))
  }

  lemma WorkerFollowsEdge(st: RowStatus, s: System, w: Worker, c: Choice, next: Pc)
    requires Fits(st, w) && AfterPc(w.pc, s, c) == Some(next)
    requires OrderlyAt(st, w.pc, s.store.StopRequested(s.job))
    ensures var to := if WritesAt(w.pc).Some? then WritesAt(w.pc).value else st;
      Edge(st, to) && OrderlyAt(to, next, s.store.StopRequested(s.job))
  {
  }

  lemma WorkFollowsEdge(s: System, i: nat, c: Choice, t: System, k: nat)
    requires Sound(s) && Step(s, Work(i, c)) == Some(t) && k < |s.ids| && Orderly(s, k)
    ensures k < |Rows(t)| && k < |t.workers|
    ensures Edge(StatusOf(s, k), StatusOf(t, k)) && Orderly(t, k)
  {
    WorkEffect(s, i, c, t);
    WorkWritesOwnRow(s, i, c, t);
    hide Step, RunnerFits, WaitsSoundly;
    assert t.store.StopRequested(t.job) == s.store.StopRequested(s.job);
    if k == i {
      WorkerFollowsEdge(StatusOf(s, k), s, s.workers[k], c, AfterPc(s.workers[k].pc, s, c).value);
    }
    hide Fits, AfterPc, Edge;
  }

  lemma StepFollowsEdge(s: System, a: Action, t: System, k: nat)
    requires Sound(s) && Step(s, a) == Some(t) && k < |s.ids| && Orderly(s, k)
    ensures k < |Rows(t)| && k < |t.workers|
    ensures Edge(StatusOf(s, k), StatusOf(t, k)) && Orderly(t, k)
  {
    if a.Work? {
      WorkFollowsEdge(s, a.i, a.choice, t, k);
    } else {
      if s.store.StopRequested(s.job) {
        StopFlagStays(s, a, t);
      }
      if a.Join? {
        JoinKeepsSound(s, t);
      } else {
        OthersLeaveRows(s, a, t);
      }
    }
    hide Step, Fits, RunnerFits, WaitsSoundly;
  }

  lemma {:induction false} RunKeepsOrderly(s: System, run: seq<Action>, t: System, k: nat)
    requires Sound(s) && Run(Step, s, run) == Some(t) && k < |s.ids| && Orderly(s, k)
    ensures k < |Rows(t)| && k < |t.workers| && Orderly(t, k)
  {
    hide Step, Fits, RunnerFits, WaitsSoundly, Orderly;
    if run == [] {
    } else {
      var u := Run(Step, s, run[..|run| - 1]).value;
      RunKeepsOrderly(s, run[..|run| - 1], u, k);
      RunKeepsSound(s, run[..|run| - 1], u);
      StepFollowsEdge(u, run[|run| - 1], t, k);
    }
  }

  // Once its worker has written a terminal status, a row keeps it for ever, whatever it held before.
  lemma {:induction false} TerminalRowsAreFinal(s: System, run: seq<Action>, t: System, k: nat)
    requires Sound(s) && Run(Step, s, run) == Some(t)
    requires k < |s.ids| && Terminal(StatusOf(s, k)) && !Untouched(s.workers[k].pc)
    ensures k < |Rows(t)| && k < |t.workers|
    ensures StatusOf(t, k) == StatusOf(s, k) && !Untouched(t.workers[k].pc)
  {
    hide Step, Fits, RunnerFits, WaitsSoundly;
    if run == [] {
    } else {
      var u := Run(Step, s, run[..|run| - 1]).value;
      TerminalRowsAreFinal(s, run[..|run| - 1], u, k);
      RunKeepsSound(s, run[..|run| - 1], u);
      StepFollowsEdge(u, run[|run| - 1], t, k);
      TouchedStaysTouched(u, run[|run| - 1], t, k);
    }
  }

  lemma TouchedStaysTouched(s: System, a: Action, t: System, k: nat)
    requires Step(s, a) == Some(t) && k < |s.workers| && !Untouched(s.workers[k].pc)
    ensures k < |t.workers| && !Untouched(t.workers[k].pc)
  {
    if a.Work? {
      WorkEffect(s, a.i, a.choice, t);
    } else if !a.Join? {
      OthersLeaveRows(s, a, t);
    }
  }

  // ---- rows that stray ----

  ghost predicate FollowsEdges(s: System, run: seq<Action>, k: nat)
    requires Run(Step, s, run).Some?
  {
    forall p: nat :: p < |run| ==> EdgeAt(s, run, p, k)
  }

  ghost predicate EdgeAt(s: System, run: seq<Action>, p: nat, k: nat)
    requires Run(Step, s, run).Some? && p < |run|
  {
    var before, after := At(Step, s, run, p), At(Step, s, run, p + 1);
    k < |Rows(before)| && k < |Rows(after)| && Edge(StatusOf(before, k), StatusOf(after, k))
  }

  lemma {:induction false} EdgesMakePaths(s: System, run: seq<Action>, m: nat, n: nat, k: nat)
    requires Run(Step, s, run).Some? && m <= n <= |run| && k < |Rows(At(Step, s, run, m))| && FollowsEdges(s, run, k)
    ensures var u, t := At(Step, s, run, m), At(Step, s, run, n);
      k < |Rows(t)| && Path(StatusOf(u, k), StatusOf(t, k))
    decreases n
  {
    hide Step, Rows, StatusOf, Run;
    if n == m {
    } else {
      EdgesMakePaths(s, run, m, n - 1, k);
      assert EdgeAt(s, run, n - 1, k);
    }
  }

  lemma AtStart(s: System, run: seq<Action>)
    requires Run(Step, s, run).Some?
    ensures At(Step, s, run, 0) == s
  {
  }

  // A worker at its first check of a job that is not stopped can start its upload, or fail for want
  // of a client.
  lemma CanArrive(s: System, k: nat, hasClient: bool) returns (run: seq<Action>, t: System)
    requires Shaped(s) && k < |s.workers| && s.workers[k].pc == FirstCheck && !s.store.StopRequested(s.job)
    ensures Run(Step, s, run) == Some(t) && |t.workers| == |s.workers| && Arrived(t, k, hasClient)
    ensures t.ids == s.ids && t.job == s.job && !t.store.StopRequested(t.job)
    ensures forall i :: 0 <= i < |s.workers| && i != k && s.workers[i].pc == FirstCheck ==> t.workers[i] == s.workers[i]
    ensures forall p :: 0 <= p < |run| && run[p].Work? ==> run[p].choice.upload == Uploaded && run[p].i == k
  {
    ShapedIsLoose(s);
    hide Step, Loose, Shaped;
    run, t := GoingArrives(s, k, hasClient);
  }

  ghost predicate CanDispatch(s: System, k: nat) {
    exists run, t :: Run(Step, s, run) == Some(t) && k < |t.workers| && t.workers[k].dispatched
  }

  // Whatever its row holds at the start, a worker can start an upload exactly if the job is not
  // stopped yet.
  lemma CanDispatchExactly(threshold: int, timeout: real, s: System, k: nat)
    requires Launched(s, threshold, timeout) && k < |s.ids|
    ensures CanDispatch(s, k) <==> !s.store.StopRequested(s.job)
  {
    assert Shaped(s) && s.workers[k].pc == FirstCheck;
    if s.store.StopRequested(s.job) {
      assert Barred(s, k);
      hide Step, Launched, Shaped, Barred;
      forall run, t | Run(Step, s, run) == Some(t) && k < |t.workers| ensures !t.workers[k].dispatched {
        NeverDispatched(s, run, t, k);
      }
    } else {
      hide Step, Launched, Shaped;
      var run, t := CanArrive(s, k, true);
    }
  }

  lemma NeverDispatched(s: System, run: seq<Action>, t: System, k: nat)
    requires Shaped(s) && Run(Step, s, run) == Some(t) && k < |s.workers| && Barred(s, k)
    ensures k < |t.workers| && !t.workers[k].dispatched
  {
    BarredForEver(s, run, t, k);
  }

  // A stop makes a worker at its first check write `skipped` over whatever its account's row holds.
  lemma CanBeSkipped(s: System, k: nat) returns (run: seq<Action>, t: System)
    requires Shaped(s) && k < |s.workers| && s.workers[k].pc == FirstCheck
    ensures Run(Step, s, run) == Some(t) && FirstOf(Rows(s), s.ids[k]) < |Rows(t)| == |Rows(s)|
    ensures StatusOf(t, FirstOf(Rows(s), s.ids[k])) == Skipped
  {
    var stop, work := FlagStop(s.job), Work(k, Choice(0.0, true, Uploaded));
    var u := Step(s, stop).value;
    StepKeepsShaped(s, stop, u);
    OthersLeaveRows(s, stop, u);
    var v := Step(u, work).value;
    StepKeepsShaped(u, work, v);
    WorkEffect(u, k, work.choice, v);
    assert v.workers[k].pc == WriteSkipped && Rows(v) == Rows(s);
    t := Step(v, work).value;
    WorkWritesLeader(v, k, work.choice, t);
    run := [stop, work, work];
    hide Shaped, Step;
    RunThree(Step, s, stop, u, work, v, work, t);
  }

  // Every row's exact condition: it follows the edges in every interleaving if it is pending at the
  // launch, or `skipped` in a job stopped by then; otherwise some run takes it somewhere else.
  lemma LifecycleExactly(threshold: int, timeout: real, s: System, k: nat)
    requires Launched(s, threshold, timeout) && DistinctIds(Rows(s)) && k < |s.ids| == |Rows(s)|
    ensures (forall run | Run(Step, s, run).Some? :: FollowsEdges(s, run, k))
       <==> StatusOf(s, k) == Pending || (StatusOf(s, k) == Skipped && s.store.StopRequested(s.job))
  {
    LaunchedIsSound(s, threshold, timeout);
    hide Step;
    if Orderly(s, k) {
      forall run | Run(Step, s, run).Some? ensures FollowsEdges(s, run, k) {
        OrderlyFollows(s, run, k);
      }
    } else {
      var run, t := CanStray(s, k);
      if FollowsEdges(s, run, k) {
        AtStart(s, run);
        AtEnd(s, run);
        EdgesMakePaths(s, run, 0, |run|, k);
      }
    }
  }

  lemma AtEnd(s: System, run: seq<Action>)
    requires Run(Step, s, run).Some?
    ensures At(Step, s, run, |run|) == Run(Step, s, run).value
  {
    assert run[..|run|] == run;
  }

  lemma OrderlyFollows(s: System, run: seq<Action>, k: nat)
    requires Sound(s) && Run(Step, s, run).Some? && k < |s.ids| && Orderly(s, k)
    ensures FollowsEdges(s, run, k)
  {
    hide Step, Fits, RunnerFits, WaitsSoundly, Orderly;
    forall p: nat | p < |run| ensures EdgeAt(s, run, p, k) {
      AtSteps(Step, s, run, p);
      RunKeepsSound(s, run[..p], At(Step, s, run, p));
      RunKeepsOrderly(s, run[..p], At(Step, s, run, p), k);
      StepFollowsEdge(At(Step, s, run, p), run[p], At(Step, s, run, p + 1), k);
    }
  }

  lemma CanStray(s: System, k: nat) returns (run: seq<Action>, t: System)
    requires Sound(s) && k < |s.ids| && s.workers[k].pc == FirstCheck && !Orderly(s, k)
    ensures Run(Step, s, run) == Some(t) && k < |Rows(t)| && !Path(StatusOf(s, k), StatusOf(t, k))
  {
    hide Step;
    if StatusOf(s, k) == Skipped {
      run, t := CanArrive(s, k, false);
      RunKeepsSound(s, run, t);
      FirstOfDistinct(Rows(t), k);
    } else {
      run, t := CanBeSkipped(s, k);
      FirstOfDistinct(Rows(s), k);
    }
  }

  // ---- retry ----

  // "Accounts that already posted are not posted to again": in no run of a retried job is an upload
  // started again for an account that had posted, exactly if there is none, or the job is stopped
  // before it starts.
  lemma RetryStartsNoUploadAgainExactly(threshold: int, timeout: real, job: Job, s: System)
    requires Retried(job).Some? && Launched(s, threshold, timeout) && Rows(s) == Retried(job).value.rows
    ensures (forall k: nat :: k < |job.rows| && job.rows[k].status == Success ==> !CanDispatch(s, k))
       <==> s.store.StopRequested(s.job) || forall k: nat :: k < |job.rows| ==> job.rows[k].status != Success
  {
    assert |job.rows| == |s.ids|;
    forall k: nat | k < |job.rows| ensures CanDispatch(s, k) <==> !s.store.StopRequested(s.job) {
      CanDispatchExactly(threshold, timeout, s, k);
    }
  }

  // Its rows follow the lifecycle in every interleaving exactly if none had succeeded or was left
  // `uploading`; a success can be overwritten.
  lemma RetriedRowsFollowExactly(threshold: int, timeout: real, job: Job, s: System, k: nat)
    requires Retried(job).Some? && Launched(s, threshold, timeout) && Rows(s) == Retried(job).value.rows
    requires DistinctIds(Rows(s)) && k < |job.rows|
    ensures (forall run | Run(Step, s, run).Some? :: FollowsEdges(s, run, k))
       <==> job.rows[k].status != Success && job.rows[k].status != Uploading
  {
    LifecycleExactly(threshold, timeout, s, k);
    hide Step, Launched, FollowsEdges;
    assert Rows(s)[k] == Reset(job.rows[k]);
  }

  // ---- uploads need media ----

  // There is something to upload among these paths.
  predicate Available(paths: seq<string>, files: set<string>) {
    exists p :: p in paths && p in files
  }

  // An upload of media that do not exist does not succeed.
  predicate Possible(run: seq<Action>, paths: seq<string>, files: set<string>) {
    forall k :: 0 <= k < |run| && run[k].Work? && run[k].choice.upload == Uploaded ==> Available(paths, files)
  }

  // The worker has not posted, and no upload of its has succeeded so far.
  predicate NotPosted(w: Worker) {
    !w.pc.WriteSuccess? && !w.pc.RecordSuccess? && w.record != Some(SyncBreaker.Success)
  }

  lemma {:induction false} NothingIsPosted(s: System, run: seq<Action>, t: System, k: nat)
    requires Run(Step, s, run) == Some(t) && k < |s.workers| && NotPosted(s.workers[k])
    requires forall p :: 0 <= p < |run| && run[p].Work? ==> run[p].choice.upload != Uploaded
    ensures k < |t.workers| && NotPosted(t.workers[k])
  {
    hide Step;
    if run == [] {
    } else {
      var u, a := Run(Step, s, run[..|run| - 1]).value, run[|run| - 1];
      NothingIsPosted(s, run[..|run| - 1], u, k);
      if a.Work? {
        WorkEffect(u, a.i, a.choice, t);
      } else if a.Join? {
        JoinKeepsWorkers(u, t);
      } else {
        OthersLeaveRows(u, a, t);
      }
    }
  }

  // The worker has posted: its row says so by its own hand.
  ghost predicate Posted(t: System, k: nat) {
    k < |t.workers| && k < |Rows(t)| && StatusOf(t, k) == Success && !Untouched(t.workers[k].pc)
  }

  ghost predicate CanPost(s: System, k: nat, paths: seq<string>, files: set<string>) {
    exists run, t :: Run(Step, s, run) == Some(t) && Possible(run, paths, files) && Posted(t, k)
  }

  lemma CanPostWithMedia(s: System, k: nat) returns (run: seq<Action>, t: System)
    requires Sound(s) && k < |s.workers| && s.workers[k].pc == FirstCheck && !s.store.StopRequested(s.job)
    ensures Run(Step, s, run) == Some(t) && Posted(t, k)
  {
    hide Step, RunnerFits, WaitsSoundly, Fits;
    var first, u := CanArrive(s, k, true);
    RunKeepsSound(s, first, u);
    var second;
    second, t := UploadLands(u, k);
    RunConcat(Step, s, first, second);
    run := first + second;
  }

  // Whatever its row holds at the launch, an account can be posted to exactly if there are media to
  // post and the job is not stopped yet.
  lemma CanPostExactly(
    threshold: int, timeout: real, s: System, k: nat, paths: seq<string>, files: set<string>)
    requires Launched(s, threshold, timeout) && DistinctIds(Rows(s)) && k < |s.ids|
    ensures CanPost(s, k, paths, files) <==> Available(paths, files) && !s.store.StopRequested(s.job)
  {
    LaunchedIsSound(s, threshold, timeout);
    assert s.workers[k] == Worker(FirstCheck, false, None);
    assert s.store.StopRequested(s.job) ==> Barred(s, k) && SkippedAtEnd(s, k);
    hide Launched, Step, RunnerFits, WaitsSoundly;
    if Available(paths, files) && !s.store.StopRequested(s.job) {
      var run, t := CanPostWithMedia(s, k);
      assert Possible(run, paths, files);
    } else {
      hide Available, Possible, Posted, Fits, Barred, SkippedAtEnd, Run;
      forall run, t | Run(Step, s, run) == Some(t) && Possible(run, paths, files) ensures !Posted(t, k) {
        CannotPost(s, run, t, k, paths, files);
      }
    }
  }

  lemma CannotPost(s: System, run: seq<Action>, t: System, k: nat, paths: seq<string>, files: set<string>)
    requires Sound(s) && k < |s.workers| && s.workers[k] == Worker(FirstCheck, false, None)
    requires s.store.StopRequested(s.job) ==> Barred(s, k) && SkippedAtEnd(s, k)
    requires !Available(paths, files) || s.store.StopRequested(s.job)
    requires Run(Step, s, run) == Some(t) && Possible(run, paths, files)
    ensures !Posted(t, k)
  {
    hide Step, RunnerFits, WaitsSoundly;
    RunKeepsSound(s, run, t);
    assert Fits(StatusOf(t, k), t.workers[k]);
    if s.store.StopRequested(s.job) {
      BarredForEver(s, run, t, k);
    } else {
      NothingIsPosted(s, run, t, k);
    }
  }

  // Without media no counted row reads `success`, whatever it read at the launch.
  lemma NoMediaNoSuccess(
    threshold: int, timeout: real, s: System, run: seq<Action>, t: System, paths: seq<string>, files: set<string>)
    requires Launched(s, threshold, timeout) && DistinctIds(Rows(s)) && !Available(paths, files)
    requires Run(Step, s, run) == Some(t) && t.runner != Joining && Possible(run, paths, files)
    ensures TallyOf(Rows(t)).success == 0
    ensures t.runner.Closed? ==> t.runner.final != JobCompleted
  {
    EveryRunEndsCounted(threshold, timeout, s, run, t);
    hide Step, RunnerFits, WaitsSoundly, TallyOf;
    forall k: nat | k < |Rows(t)| ensures Rows(t)[k].status != Success {
      CannotPost(s, run, t, k, paths, files) by {
        LaunchedIsSound(s, threshold, timeout);
        assert s.workers[k] == Worker(FirstCheck, false, None);
        assert s.store.StopRequested(s.job) ==> Barred(s, k) && SkippedAtEnd(s, k);
      }
      CountedHasWritten(threshold, timeout, s, run, t, k);
    }
    hide Launched, Run, Possible, Available;
    NoneAre(Rows(t), Success);
    assert Rows(t)[0].status != Success;
  }

  lemma CountedHasWritten(threshold: int, timeout: real, s: System, run: seq<Action>, t: System, k: nat)
    requires Launched(s, threshold, timeout) && DistinctIds(Rows(s)) && k < |Rows(t)|
    requires Run(Step, s, run) == Some(t) && t.runner != Joining
    ensures k < |t.workers| && !Untouched(t.workers[k].pc) && StatusOf(t, k) == Rows(t)[k].status
  {
    ReachableIsShaped(threshold, timeout, s, run, t);
    hide Step, Launched, WaitsSoundly;
    assert AllFinished(t);
  }

  // Since the run that a retry follows has removed the media, no account can be posted to any more:
  // not again, but also not for the first time.  When the retried job has been counted, no row reads
  // `success`, not even one that did before; it never ends as completed.
  lemma RetryAfterCleanupLosesSuccesses(
    threshold: int, timeout: real, job: Job, files: set<string>, s: System, run: seq<Action>, t: System)
    requires Retried(job).Some? && job.media.Some?
    requires Launched(s, threshold, timeout) && Rows(s) == Retried(job).value.rows && DistinctIds(Rows(s))
    requires Run(Step, s, run) == Some(t) && t.runner != Joining
    requires Possible(run, Retried(job).value.media.value, files - Removed(job.media.value))
    ensures TallyOf(Rows(t)).success == 0
    ensures forall k: nat :: k < |s.ids| ==> !CanPost(s, k, job.media.value, files - Removed(job.media.value))
    ensures t.runner.Closed? ==> t.runner.final != JobCompleted
  {
    var paths, left := job.media.value, files - Removed(job.media.value);
    MediaAreRemoved(paths);
    assert !Available(paths, left);
    NoMediaNoSuccess(threshold, timeout, s, run, t, paths, left);
    hide Launched, Step, Run, Possible, Available, TallyOf;
    forall k: nat | k < |s.ids| ensures !CanPost(s, k, paths, left) {
      CanPostExactly(threshold, timeout, s, k, paths, left);
    }
  }
}
