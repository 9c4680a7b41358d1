// What a retry does to a job whose workers are still running, and what the outer deadline does: the
// promises they break, with runs that show it, and exactly when they keep them.
module PostJobRaces {
  import opened Options
  import opened Runs
  import opened JobStore
  import opened PostJobEngine
  import opened PostJobSafety
  import opened PostJobControl
  import Gate = PostJobGate
  import opened PostJobRetry
  import opened PostJobWaiting
  import SyncBreaker

  // ---- the retry clears the controls ----

  // Whatever else happens, the stop flag stays up until all workers have finished, except that a
  // retry takes it down.
  lemma FlagSurvivesExactly(s: System, e: Event, t: System)
    requires Loose(s) && s.store.StopRequested(s.job) && AnyStep(s, e) == Some(t)
    ensures t.store.StopRequested(t.job) || AllFinished(t) <==> e != RetryClears || AllFinished(s)
  {
    if e.Ordinary? && e.action.Work? {
      WorkEffect(s, e.action.i, e.action.choice, t);
    } else if e.Ordinary? && !e.action.Join? {
      OthersLeaveRows(s, e.action, t);
    }
    hide WaitsLoosely;
  }

  // A worker that must not start an upload any more is set free by the retry, unless it has finished.
  lemma BarredSurvivesExactly(s: System, e: Event, t: System, k: nat)
    requires Loose(s) && k < |s.workers| && Barred(s, k) && AnyStep(s, e) == Some(t)
    ensures k < |t.workers| && (Barred(t, k) <==> e != RetryClears || s.workers[k].pc == Finished)
  {
    StepKeepsLoose(s, e, t);
    if s.store.StopRequested(s.job) {
      FlagSurvivesExactly(s, e, t);
    }
    hide Loose;
    if e.Ordinary? && e.action.Work? {
      WorkEffect(s, e.action.i, e.action.choice, t);
      hide Step;
    } else if e.Ordinary? && e.action.Join? {
      JoinKeepsWorkers(s, t);
      hide Step;
    } else if e.Ordinary? {
      OthersLeaveRows(s, e.action, t);
      hide Step;
    }
  }

  // So over every run in which the controls are not cleared, whatever rows a retry resets.
  lemma {:induction false} BarredUnlessCleared(s: System, run: seq<Event>, t: System, k: nat)
    requires Loose(s) && k < |s.workers| && Barred(s, k)
    requires Run(AnyStep, s, run) == Some(t) && RetryClears !in run
    ensures k < |t.workers| && Barred(t, k)
  {
    hide AnyStep, Loose, Barred;
    if run == [] {
    } else {
      var u := Run(AnyStep, s, run[..|run| - 1]).value;
      BarredUnlessCleared(s, run[..|run| - 1], u, k);
      RunKeepsLoose(s, run[..|run| - 1], u);
      BarredSurvivesExactly(u, run[|run| - 1], t, k);
    }
  }

  ghost predicate CanUpload(s: System, k: nat) {
    exists run, t :: Run(AnyStep, s, run) == Some(t) && k < |t.workers| && t.workers[k].dispatched
  }

  // The worker is on its way to its upload, unless it is turned away.
  predicate Bound(pc: Pc) {
    (Untouched(pc) && !pc.WriteSkipped? && !pc.WriteCircuitOpen? && !pc.WriteNotLoggedIn?) || pc == Dispatch
  }

  lemma {:induction false} NotBoundNoUpload(s: System, run: seq<Event>, t: System, k: nat)
    requires Run(AnyStep, s, run) == Some(t) && k < |s.workers|
    requires !s.workers[k].dispatched && !Bound(s.workers[k].pc)
    ensures k < |t.workers| && !t.workers[k].dispatched && !Bound(t.workers[k].pc)
  {
    hide Step;
    if run == [] {
    } else {
      var u, e := Run(AnyStep, s, run[..|run| - 1]).value, run[|run| - 1];
      NotBoundNoUpload(s, run[..|run| - 1], u, k);
      if e.Ordinary? && e.action.Work? {
        WorkEffect(u, e.action.i, e.action.choice, t);
      } else if e.Ordinary? && e.action.Join? {
        JoinKeepsWorkers(u, t);
      } else if e.Ordinary? {
        OthersLeaveRows(u, e.action, t);
      }
    }
  }

  // A stopped job whose controls a retry clears: a worker goes on to its upload in some run exactly
  // if it was on its way there and does not wait for an event that nobody can set any more.
  lemma UploadsAfterClearExactly(s: System, t: System, k: nat)
    requires Loose(s) && AnyStep(s, RetryClears) == Some(t) && k < |s.workers| && !s.workers[k].dispatched
    ensures k < |t.workers| && (CanUpload(t, k) <==> Bound(s.workers[k].pc) && !Trapped(t, k))
  {
    StepKeepsLoose(s, RetryClears, t);
    assert t.workers == s.workers && !t.store.StopRequested(t.job);
    hide AnyStep, Step, Loose, Trapped;
    if Bound(s.workers[k].pc) && !Trapped(t, k) {
      assert Going(t, k, true);
      var run, u := GoingArrives(t, k, true);
      OrdinaryRuns(t, run);
    } else {
      forall run, u | Run(AnyStep, t, run) == Some(u) && k < |u.workers| ensures !u.workers[k].dispatched {
        if Trapped(t, k) {
          LooseIsValid(t);
          TrappedForEver(t, run, u, k);
        } else {
          NotBoundNoUpload(t, run, u, k);
        }
      }
    }
  }

  lemma LooseIsValid(s: System)
    requires Loose(s)
    ensures s.store.Valid()
  {
  }

  ghost predicate SleepsForEver(s: System, k: nat, e: nat) {
    forall run, t :: Run(AnyStep, s, run) == Some(t) ==> k < |t.workers| && t.workers[k].pc == Blocked(e)
  }

  // A sleeping worker sleeps for ever exactly if its event is orphaned ...
  lemma SleepsForEverExactly(s: System, k: nat, e: nat)
    requires Loose(s) && k < |s.workers| && s.workers[k].pc == Blocked(e)
    ensures SleepsForEver(s, k, e) <==> Orphan(s, e)
  {
    if Orphan(s, e) {
      assert s.store.Valid();
      hide AnyStep, Orphan, Loose;
      forall run, t | Run(AnyStep, s, run) == Some(t) ensures k < |t.workers| && t.workers[k].pc == Blocked(e) {
        TrappedForEver(s, run, t, k);
      }
    } else {
      var run, t := FreeSleeper(s, k);
      hide Step, Loose;
      OrdinaryRuns(s, run);
      assert Run(AnyStep, s, Ordinaries(run)) == Some(t);
    }
  }

  // ... which the retry does to it exactly if no thread was about to set the event just then.
  lemma ClearedSleeperExactly(s: System, t: System, k: nat, e: nat)
    requires Loose(s) && AnyStep(s, RetryClears) == Some(t) && k < |s.workers| && s.workers[k].pc == Blocked(e)
    ensures SleepsForEver(t, k, e) <==> e !in s.releases
  {
    StepKeepsLoose(s, RetryClears, t);
    assert WaitsLoosely(s, s.workers[k].pc);
    assert t.store.Valid() && t.workers == s.workers && t.releases == s.releases;
    UnmappedSleeperExactly(t, k, e);
  }

  // The same of any state in which no job has the event.
  lemma UnmappedSleeperExactly(s: System, k: nat, e: nat)
    requires s.store.Valid() && k < |s.workers| && s.workers[k].pc == Blocked(e)
    requires e < |s.store.events| && !s.store.events[e]
    requires forall j :: j in s.store.pauseEvents ==> s.store.pauseEvents[j] != e
    ensures SleepsForEver(s, k, e) <==> e !in s.releases
  {
    if e in s.releases {
      var t := Step(s, Release(e)).value;
      RunOne(AnyStep, s, [], Ordinary(Release(e)));
      assert t.workers[k].pc == SecondCheck;
    } else {
      assert Trapped(s, k);
      hide Step, AnyStep, Trapped;
      forall run, t | Run(AnyStep, s, run) == Some(t) ensures k < |t.workers| && t.workers[k].pc == Blocked(e) {
        TrappedForEver(s, run, t, k);
      }
    }
  }

  // ---- can the job still end? ----

  ghost predicate CanClose(s: System) {
    exists run, t :: Run(AnyStep, s, run) == Some(t) && t.runner.Closed?
  }

  lemma EveryoneGetsDone(s: System) returns (run: seq<Action>, t: System)
    requires Loose(s) && forall k :: 0 <= k < |s.workers| ==> !Trapped(s, k)
    ensures Run(Step, s, run) == Some(t) && AllFinished(t)
    decreases TotalAhead(s.workers)
  {
    hide Step, Loose, TotalAhead, Trapped, Later;
    run, t := [], s;
    if !AllFinished(s) {
      var k: nat :| k < |s.workers| && s.workers[k].pc != Finished;
      var first, u := GetsOn(s, k, Choice(0.0, true, Uploaded));
      NoOneElseIsTrapped(s, u, k);
      var rest;
      rest, t := EveryoneGetsDone(u);
      RunConcat(Step, s, first, rest);
      run := first + rest;
    }
  }

  // A job can be brought to its end -- by its own threads and, if need be, a resume -- exactly if no
  // worker waits for an orphaned event.
  lemma CanCloseExactly(s: System)
    requires Loose(s)
    ensures CanClose(s) <==> forall k :: 0 <= k < |s.workers| ==> !Trapped(s, k)
  {
    hide Step, AnyStep;
    if forall k :: 0 <= k < |s.workers| ==> !Trapped(s, k) {
      var first, u := EveryoneGetsDone(s);
      FinishFrom(u);
      var second, t :| Run(Step, u, second) == Some(t) && t.runner.Closed?;
      RunConcat(Step, s, first, second);
      OrdinaryRuns(s, first + second);
      assert Run(AnyStep, s, Ordinaries(first + second)) == Some(t);
    } else {
      var k: nat :| k < |s.workers| && Trapped(s, k);
      forall run, t | Run(AnyStep, s, run) == Some(t) ensures !t.runner.Closed? {
        TrappedForEver(s, run, t, k);
        RunKeepsLoose(s, run, t);
        assert t.workers[k].pc != Finished;
      }
    }
  }

  // ---- the retry resets rows ----

  // What holds of the rows in every run in which no retry resets them.
  ghost predicate Firm(s: System) {
    && Loose(s) && DistinctIds(Rows(s))
    && forall k :: 0 <= k < |s.workers| ==> Fits(StatusOf(s, k), s.workers[k])
  }

  lemma SoundIsFirm(s: System)
    requires Sound(s)
    ensures Firm(s) && forall k :: 0 <= k < |s.workers| ==> !Trapped(s, k)
  {
    ShapedIsLoose(s);
    hide Loose, Shaped, Trapped;
  }

  lemma ClearLeavesRows(s: System, t: System)
    requires AnyStep(s, RetryClears) == Some(t)
    ensures Rows(t) == Rows(s) && t.workers == s.workers && t.runner == s.runner
  {
  }

  lemma JoinLeavesRows(s: System, t: System)
    requires Step(s, Join) == Some(t)
    ensures Rows(t) == Rows(s) && t.workers == s.workers
  {
    assert Rows(t) == Rows(s);
  }

  lemma StepKeepsFirm(s: System, e: Event, t: System)
    requires Firm(s) && AnyStep(s, e) == Some(t) && e != RetryResets
    ensures Firm(t) && t.ids == s.ids
  {
    StepKeepsLoose(s, e, t);
    hide WaitsLoosely;
    if e == RetryClears {
      ClearLeavesRows(s, t);
      hide AnyStep;
    } else if e.action.Work? {
      var i, c := e.action.i, e.action.choice;
      WorkEffect(s, i, c, t);
      WorkWritesOwnRow(s, i, c, t);
      WorkerKeepsFit(StatusOf(s, i), s, s.workers[i], c, AfterPc(s.workers[i].pc, s, c).value);
      hide Step, Fits, AfterPc;
    } else if e.action.Join? {
      JoinLeavesRows(s, t);
      hide Step, Fits;
    } else {
      OthersLeaveRows(s, e.action, t);
      hide Step;
    }
  }

  lemma {:induction false} RunKeepsFirm(s: System, run: seq<Event>, t: System)
    requires Firm(s) && Run(AnyStep, s, run) == Some(t) && RetryResets !in run
    ensures Firm(t) && t.ids == s.ids
  {
    hide AnyStep, Firm;
    if run == [] {
    } else {
      var u := Run(AnyStep, s, run[..|run| - 1]).value;
      RunKeepsFirm(s, run[..|run| - 1], u);
      StepKeepsFirm(u, run[|run| - 1], t);
    }
  }

  // The worker has written the last status it will ever write.
  predicate WroteLast(pc: Pc) {
    pc.RecordFailure? || pc.RecordSuccess? || pc.Finished?
  }

  // A reset takes away what this worker last wrote, and nobody will write the row again.
  ghost predicate Stranded(s: System, k: nat)
    requires k < |s.workers| && k < |Rows(s)|
  {
    WroteLast(s.workers[k].pc) && (StatusOf(s, k) == Failed || StatusOf(s, k) == Skipped)
  }

  lemma ResetEffect(s: System, t: System)
    requires AnyStep(s, RetryResets) == Some(t)
    ensures s.job in s.store.jobs && t == s.(store := t.store) && Rows(t) == ResetAll(Rows(s))
    ensures t.store.stopFlags == s.store.stopFlags && t.store.events == s.store.events
    ensures t.store.pauseEvents == s.store.pauseEvents
  {
  }

  lemma ResetFirmExactly(s: System, t: System)
    requires Firm(s) && AnyStep(s, RetryResets) == Some(t)
    ensures Loose(t) && |Rows(t)| == |Rows(s)| == |s.workers|
    ensures Firm(t) <==> forall k: nat :: k < |s.workers| ==> !Stranded(s, k)
    ensures forall k: nat :: k < |s.workers| && Stranded(s, k) ==>
      WroteLast(t.workers[k].pc) && StatusOf(t, k) == Pending
  {
    StepKeepsLoose(s, RetryResets, t);
    ResetEffect(s, t);
    hide AnyStep, WaitsLoosely;
    forall k: nat | k < |s.workers|
      ensures Fits(StatusOf(t, k), t.workers[k]) <==> !Stranded(s, k)
      ensures Stranded(s, k) ==> WroteLast(t.workers[k].pc) && StatusOf(t, k) == Pending
    {
      assert Fits(StatusOf(s, k), s.workers[k]);
    }
    hide Fits;
  }

  // A stranded row stays pending until it is reset again.
  lemma StepLeavesStranded(s: System, e: Event, t: System, k: nat)
    requires Loose(s) && DistinctIds(Rows(s)) && AnyStep(s, e) == Some(t) && e != RetryResets
    requires k < |s.workers| && WroteLast(s.workers[k].pc) && StatusOf(s, k) == Pending
    ensures k < |t.workers| && k < |Rows(t)| && DistinctIds(Rows(t))
    ensures WroteLast(t.workers[k].pc) && StatusOf(t, k) == Pending
  {
    hide WaitsLoosely;
    if e == RetryClears {
      ClearLeavesRows(s, t);
      hide AnyStep;
    } else if e.action.Work? {
      WorkEffect(s, e.action.i, e.action.choice, t);
      WorkWritesOwnRow(s, e.action.i, e.action.choice, t);
      hide Step;
    } else if e.action.Join? {
      JoinLeavesRows(s, t);
      hide Step;
    } else {
      OthersLeaveRows(s, e.action, t);
      hide Step;
    }
  }

  lemma {:induction false} RunLeavesStranded(s: System, run: seq<Event>, t: System, k: nat)
    requires Loose(s) && DistinctIds(Rows(s)) && Run(AnyStep, s, run) == Some(t) && RetryResets !in run
    requires k < |s.workers| && WroteLast(s.workers[k].pc) && StatusOf(s, k) == Pending
    ensures k < |t.workers| && k < |Rows(t)| && DistinctIds(Rows(t))
    ensures WroteLast(t.workers[k].pc) && StatusOf(t, k) == Pending
  {
    hide AnyStep, WaitsLoosely;
    if run == [] {
    } else {
      var u := Run(AnyStep, s, run[..|run| - 1]).value;
      RunLeavesStranded(s, run[..|run| - 1], u, k);
      RunKeepsLoose(s, run[..|run| - 1], u);
      StepLeavesStranded(u, run[|run| - 1], t, k);
    }
  }

  // The tally accounts for every row.
  ghost predicate CountsAll(t: System) {
    var tally := TallyOf(Rows(t)); tally.success + tally.failed + tally.skipped == |Rows(t)|
  }

  lemma CountsAllExactly(t: System)
    ensures CountsAll(t) <==> forall k :: 0 <= k < |Rows(t)| ==> Terminal(StatusOf(t, k))
  {
    var rows := Rows(t);
    TallyCountsTerminalRows(rows);
    hide TallyOf, Terminal;
    if forall k :: 0 <= k < |rows| ==> Terminal(StatusOf(t, k)) {
      forall k: nat | k < |rows| ensures k in TerminalRows(rows) {
        assert Terminal(StatusOf(t, k));
      }
      assert TerminalRows(rows) == Below(|rows|);
    } else {
      var k: nat :| k < |rows| && !Terminal(StatusOf(t, k));
      assert TerminalRows(rows) <= Below(|rows|) - {k};
      SubsetSize(TerminalRows(rows), Below(|rows|) - {k});
    }
  }

  // From here on, until it is reset again: when the job is counted, every row is.
  ghost predicate AlwaysCountsAll(s: System) {
    forall run, t :: Run(AnyStep, s, run) == Some(t) && RetryResets !in run && t.runner != Joining ==> CountsAll(t)
  }

  // A retry resets the rows of a job whose workers still run.  The tally that ends the run accounts
  // for all rows, in every continuation without another reset, exactly if no worker that has written
  // its last left `failed` or `skipped` -- or no tally will ever be taken, for a trapped worker.
  lemma RetriedRunCountsAllExactly(s: System, t: System)
    requires Firm(s) && AnyStep(s, RetryResets) == Some(t)
    ensures |Rows(s)| == |s.workers|
    ensures AlwaysCountsAll(t)
       <==> ((forall k: nat :: k < |s.workers| ==> !Stranded(s, k))
             || (t.runner == Joining && exists k :: 0 <= k < |t.workers| && Trapped(t, k)))
  {
    ResetFirmExactly(s, t);
    hide AnyStep, Step, Stranded, Fits, WaitsLoosely;
    if forall k: nat :: k < |s.workers| ==> !Stranded(s, k) {
      forall run, u | Run(AnyStep, t, run) == Some(u) && RetryResets !in run && u.runner != Joining
        ensures CountsAll(u)
      {
        FirmCountsAll(t, run, u);
      }
    } else {
      var k: nat :| k < |s.workers| && Stranded(s, k);
      ResetKeepsIds(s, t);
      hide *;
      StrandedCountsExactly(t, k);
    }
  }

  lemma ResetKeepsIds(s: System, t: System)
    requires Firm(s) && AnyStep(s, RetryResets) == Some(t)
    ensures DistinctIds(Rows(t)) && t.workers == s.workers
  {
    ResetEffect(s, t);
    hide AnyStep;
  }

  lemma StrandedCountsExactly(s: System, k: nat)
    requires Loose(s) && DistinctIds(Rows(s))
    requires k < |s.workers| && WroteLast(s.workers[k].pc) && StatusOf(s, k) == Pending
    ensures AlwaysCountsAll(s) <==> s.runner == Joining && exists i :: 0 <= i < |s.workers| && Trapped(s, i)
  {
    if s.runner == Joining && exists i :: 0 <= i < |s.workers| && Trapped(s, i) {
      var i: nat :| i < |s.workers| && Trapped(s, i);
      hide AnyStep, Step;
      forall run, u | Run(AnyStep, s, run) == Some(u) ensures u.runner == Joining {
        TrappedIsNeverCounted(s, run, u, i);
      }
    } else {
      hide AnyStep, Step, WaitsLoosely;
      var run, u := StrandedIsCounted(s, k);
      CountsAllExactly(u);
      assert !Terminal(StatusOf(u, k));
      assert !CountsAll(u);
    }
  }

  lemma FirmCountsAll(s: System, run: seq<Event>, t: System)
    requires Firm(s) && Run(AnyStep, s, run) == Some(t) && RetryResets !in run && t.runner != Joining
    ensures CountsAll(t)
  {
    RunKeepsFirm(s, run, t);
    forall k | 0 <= k < |Rows(t)| ensures Terminal(StatusOf(t, k)) {
      assert Fits(StatusOf(t, k), t.workers[k]);
    }
    CountsAllExactly(t);
  }

  // So in every run from a launch, retries clearing its controls or not, in which none resets its rows.
  lemma UnresetRunCountsAll(threshold: int, timeout: real, s: System, run: seq<Event>, t: System)
    requires Launched(s, threshold, timeout) && DistinctIds(Rows(s))
    requires Run(AnyStep, s, run) == Some(t) && RetryResets !in run && t.runner != Joining
    ensures CountsAll(t)
  {
    LaunchedIsSound(s, threshold, timeout);
    SoundIsFirm(s);
    hide Launched, Firm, AnyStep;
    FirmCountsAll(s, run, t);
  }

  lemma TrappedIsNeverCounted(s: System, run: seq<Event>, t: System, k: nat)
    requires Loose(s) && Run(AnyStep, s, run) == Some(t) && k < |s.workers| && Trapped(s, k)
    ensures t.runner == Joining
  {
    TrappedForEver(s, run, t, k);
    RunKeepsLoose(s, run, t);
    assert t.workers[k].pc != Finished;
  }

  lemma StrandedIsCounted(s: System, k: nat) returns (run: seq<Event>, t: System)
    requires Loose(s) && DistinctIds(Rows(s))
    requires k < |s.workers| && WroteLast(s.workers[k].pc) && StatusOf(s, k) == Pending
    requires s.runner == Joining ==> forall i :: 0 <= i < |s.workers| ==> !Trapped(s, i)
    ensures Run(AnyStep, s, run) == Some(t) && RetryResets !in run && t.runner != Joining
    ensures k < |Rows(t)| && StatusOf(t, k) == Pending
  {
    if s.runner != Joining {
      run, t := [], s;
    } else {
      hide Step, AnyStep;
      var first, u := EveryoneGetsDone(s);
      FinishFrom(u);
      var second, v :| Run(Step, u, second) == Some(v) && v.runner.Closed?;
      RunConcat(Step, s, first, second);
      OrdinaryRuns(s, first + second);
      run, t := Ordinaries(first + second), v;
      RunLeavesStranded(s, run, t, k);
    }
  }

  // ---- runs that show it ----

  lemma SeesTheStop(s: System, i: nat) returns (t: System)
    requires Sound(s) && s.store.StopRequested(s.job) && i < |s.workers| && s.workers[i].pc == FirstCheck
    ensures Step(s, Work(i, Choice(0.0, true, Uploaded))) == Some(t) && Rows(t) == Rows(s)
    ensures t == s.(workers := s.workers[i := s.workers[i].(pc := WriteSkipped)]) && Sound(t)
  {
    t := Step(s, Work(i, Choice(0.0, true, Uploaded))).value;
    WorkKeepsSound(s, i, Choice(0.0, true, Uploaded), t);
    hide Sound;
  }

  lemma WritesSkipped(s: System, i: nat) returns (t: System)
    requires Sound(s) && i < |s.workers| && s.workers[i].pc == WriteSkipped
    ensures Step(s, Work(i, Choice(0.0, true, Uploaded))) == Some(t) && Sound(t) && |Rows(t)| == |Rows(s)|
    ensures t.workers == s.workers[i := s.workers[i].(pc := Finished)] && t.store.stopFlags == s.store.stopFlags
    ensures t.ids == s.ids && t.job == s.job && t.runner == s.runner
    ensures forall k :: 0 <= k < |s.ids| ==> StatusOf(t, k) == if k == i then Skipped else StatusOf(s, k)
  {
    t := Step(s, Work(i, Choice(0.0, true, Uploaded))).value;
    WorkKeepsSound(s, i, Choice(0.0, true, Uploaded), t);
    WorkWritesOwnRow(s, i, Choice(0.0, true, Uploaded), t);
    WorkEffect(s, i, Choice(0.0, true, Uploaded), t);
    hide Step, RunnerFits, WaitsSoundly, Fits;
  }

  lemma SkipOne(s: System, i: nat) returns (t: System)
    requires Sound(s) && s.store.StopRequested(s.job) && i < |s.workers|
    requires s.workers[i].pc == FirstCheck && s.runner == Joining
    ensures var a := Work(i, Choice(0.0, true, Uploaded)); Run(Step, s, [a, a]) == Some(t)
    ensures Sound(t) && t.ids == s.ids && t.job == s.job && t.runner == Joining && t.store.StopRequested(t.job)
    ensures t.workers == s.workers[i := s.workers[i].(pc := Finished)] && StatusOf(t, i) == Skipped
    ensures forall k :: 0 <= k < |s.ids| && k != i ==> StatusOf(t, k) == StatusOf(s, k)
  {
    hide Step, RunnerFits, WaitsSoundly, Fits;
    var a := Work(i, Choice(0.0, true, Uploaded));
    var u := SeesTheStop(s, i);
    t := WritesSkipped(u, i);
    assert forall k :: 0 <= k < |s.ids| ==> StatusOf(u, k) == StatusOf(s, k);
    RunOne(Step, s, [], a);
    RunOne(Step, s, [] + [a], a);
    assert [] + [a] + [a] == [a, a];
  }

  lemma NothingRun(s: System)
    ensures Run(Step, s, []) == Some(s)
  {
  }

  lemma SkipAll(s: System, n: nat) returns (run: seq<Action>, t: System)
    requires Sound(s) && s.store.StopRequested(s.job) && n <= |s.workers| && s.runner == Joining
    requires forall i :: 0 <= i < |s.workers| ==> s.workers[i].pc == FirstCheck
    ensures Run(Step, s, run) == Some(t) && Sound(t) && t.ids == s.ids && t.job == s.job && t.runner == Joining
    ensures t.store.StopRequested(t.job) && |t.workers| == |s.workers|
    ensures forall i :: 0 <= i < n ==> t.workers[i].pc == Finished && StatusOf(t, i) == Skipped
    ensures forall i :: n <= i < |s.workers| ==> t.workers[i].pc == FirstCheck
  {
    hide Step, RunnerFits, WaitsSoundly, Fits, DistinctIds, Run;
    assert Run(Step, s, []) == Some(s) by { NothingRun(s); }
    run, t := [], s;
    if n == 0 {
    } else {
      run, t := SkipAll(s, n - 1);
      var u, a := t, Work(n - 1, Choice(0.0, true, Uploaded));
      t := SkipOne(u, n - 1);
      RunConcat(Step, s, run, [a, a]);
      run := run + [a, a];
    }
  }

  // From every launch: stopped, and retried as soon as the workers have stepped back, the job is
  // counted with no row at all and ends "completed", though every row is pending and nothing was
  // posted.  The retry's own entry in the queue then finds a job it does not run.
  lemma StoppedJobCanComplete(threshold: int, timeout: real, s: System, parses: string -> bool)
    returns (run: seq<Event>, t: System)
    requires Launched(s, threshold, timeout) && DistinctIds(Rows(s))
    ensures Run(AnyStep, s, run) == Some(t) && t.runner == Closed(JobCompleted)
    ensures StoredStatus(t) == Some(JobCompleted) && AllAre(Rows(t), Pending) && Rows(t) != []
    ensures forall k :: 0 <= k < |t.workers| ==> !t.workers[k].dispatched
    ensures t.job in t.store.jobs && Gate.ExecutorGate(t.store.jobs[t.job], parses) == Gate.Ignore
  {
    LaunchedIsSound(s, threshold, timeout);
    var stop := FlagStop(s.job);
    var s1 := Step(s, stop).value;
    StepKeepsSound(s, stop, s1);
    assert forall i :: 0 <= i < |s1.workers| ==> s1.workers[i] == Worker(FirstCheck, false, None);
    hide Launched, RunnerFits, WaitsSoundly;
    var skips, s2 := SkipAll(s1, |s1.workers|);
    forall k | 0 <= k < |s2.workers| ensures !s2.workers[k].dispatched {
      assert Fits(StatusOf(s2, k), s2.workers[k]);
    }
    var tail;
    tail, t := RetryEmptiesTally(s2);
    hide Step, AnyStep, Fits;
    RunOne(Step, s, [], stop);
    RunConcat(Step, s, [] + [stop], skips);
    OrdinaryRuns(s, ([] + [stop]) + skips);
    RunConcat(AnyStep, s, Ordinaries(([] + [stop]) + skips), tail);
    run := Ordinaries(([] + [stop]) + skips) + tail;
  }

  lemma RetryEmptiesTally(s: System) returns (run: seq<Event>, t: System)
    requires Sound(s) && s.runner == Joining && AllFinished(s)
    requires forall k :: 0 <= k < |s.ids| ==> StatusOf(s, k) == Skipped
    ensures Run(AnyStep, s, run) == Some(t) && t.runner == Closed(JobCompleted) && t.workers == s.workers
    ensures StoredStatus(t) == Some(JobCompleted) && AllAre(Rows(t), Pending) && Rows(t) != []
  {
    var join := Ordinary(Join);
    var s1 := s.(store := s.store.SetJobStatus(s.job, JobStopped));
    var s2 := s1.(store := s1.store.ClearControl(s.job));
    var s3 := ResetJob(s2).value;
    var tally := TallyOf(Rows(s3));
    var s4 := s3.(runner := Counted(tally));
    var s5 := s4.(store := s4.store.ClearControl(s.job), runner := Cleared(tally));
    NobodyCounted(s, s3);
    t := s5.(store := s5.store.SetJobStatus(s.job, JobCompleted), runner := Closed(JobCompleted));
    RunThree(AnyStep, s, Ordinary(SetStatus(s.job, JobStopped)), s1, RetryClears, s2, RetryResets, s3);
    RunThree(AnyStep, s3, join, s4, join, s5, join, t);
    run := [Ordinary(SetStatus(s.job, JobStopped)), RetryClears, RetryResets] + [join, join, join];
    RunConcat(AnyStep, s, [Ordinary(SetStatus(s.job, JobStopped)), RetryClears, RetryResets], [join, join, join]);
  }

  lemma NobodyCounted(s: System, t: System)
    requires |Rows(s)| == |s.ids| >= 1 && Rows(t) == ResetAll(Rows(s))
    requires forall k :: 0 <= k < |s.ids| ==> StatusOf(s, k) == Skipped
    ensures AllAre(Rows(t), Pending) && TallyOf(Rows(t)) == Tally(0, 0, 0) && Rows(t) != []
  {
    forall k | 0 <= k < |Rows(t)| ensures Rows(t)[k].status == Pending {
      assert StatusOf(s, k) == Skipped;
    }
    NoneAre(Rows(t), Success);
    NoneAre(Rows(t), Failed);
    NoneAre(Rows(t), Skipped);
  }

  // One worker still uploads when the job is retried, all others have finished: if the upload
  // succeeds the job ends "completed", whatever the others had come to.
  lemma RetryWhileUploading(s: System, i: nat, s1: System) returns (run: seq<Event>, t: System)
    requires Firm(s) && s.runner == Joining && AnyStep(s, RetryResets) == Some(s1)
    requires i < |s.workers| && s.workers[i].pc == AwaitUpload
    requires forall k :: 0 <= k < |s.workers| && k != i ==> s.workers[k].pc == Finished
    ensures Run(AnyStep, s1, run) == Some(t) && t.runner == Closed(JobCompleted) && |Rows(t)| == |Rows(s)|
    ensures forall k :: 0 <= k < |Rows(s)| ==>
      StatusOf(t, k) == if k == i || StatusOf(s, k) == Success then Success else Pending
  {
    ResetFirmExactly(s, s1);
    ResetEffect(s, s1);
    forall k | 0 <= k < |s.workers|
      ensures k != i ==> StatusOf(s1, k) == if StatusOf(s, k) == Success then Success else Pending
    {
      assert Fits(StatusOf(s, k), s.workers[k]);
    }
    hide AnyStep, Step, Fits, WaitsLoosely, ResetAll, Run;
    var u := LastUploadEnds(s1, i);
    t := CloseCompleted(u);
    var a, join := Work(i, Choice(0.0, true, Uploaded)), Join;
    RunConcat(Step, s1, [a, a, a], [join, join, join]);
    OrdinaryRuns(s1, [a, a, a] + [join, join, join]);
    run := Ordinaries([a, a, a] + [join, join, join]);
  }

  lemma LastUploadEnds(s: System, i: nat) returns (t: System)
    requires Loose(s) && DistinctIds(Rows(s)) && s.runner == Joining
    requires i < |s.workers| && s.workers[i].pc == AwaitUpload
    requires forall k :: 0 <= k < |s.workers| && k != i ==> s.workers[k].pc == Finished
    ensures var a := Work(i, Choice(0.0, true, Uploaded)); Run(Step, s, [a, a, a]) == Some(t)
    ensures Loose(t) && t.runner == Joining && AllFinished(t) && |Rows(t)| == |Rows(s)|
    ensures forall k :: 0 <= k < |Rows(s)| ==> StatusOf(t, k) == if k == i then Success else StatusOf(s, k)
  {
    hide Step, Loose;
    var a := Work(i, Choice(0.0, true, Uploaded));
    LooseIsMatched(s);
    var run, u := UploadLands(s, i);
    OrdinaryRuns(s, run);
    RunKeepsLoose(s, Ordinaries(run), u);
    t := SuccessIsRecorded(u, i);
    OrdinaryRuns(u, [a]);
    RunOne(Step, u, [], a);
    assert [] + [a] == [a] && [a, a] + [a] == [a, a, a];
    RunKeepsLoose(u, Ordinaries([a]), t);
    RunConcat(Step, s, [a, a], [a]);
  }

  lemma LooseIsMatched(s: System)
    requires Loose(s)
    ensures Matched(s)
  {
  }

  lemma SuccessIsRecorded(s: System, i: nat) returns (t: System)
    requires Matched(s) && i < |s.workers| && s.workers[i].pc == RecordSuccess
    ensures Step(s, Work(i, Choice(0.0, true, Uploaded))) == Some(t) && Rows(t) == Rows(s) && t.runner == s.runner
    ensures |t.workers| == |s.workers| && t.workers[i].pc == Finished
    ensures forall k :: 0 <= k < |s.workers| && k != i ==> t.workers[k] == s.workers[k]
  {
    t := Step(s, Work(i, Choice(0.0, true, Uploaded))).value;
  }

  lemma CloseCompleted(s: System) returns (t: System)
    requires Loose(s) && s.runner == Joining && AllFinished(s)
    requires forall k :: 0 <= k < |Rows(s)| ==> StatusOf(s, k) == Success || StatusOf(s, k) == Pending
    ensures Run(Step, s, [Join, Join, Join]) == Some(t) && t.runner == Closed(JobCompleted) && Rows(t) == Rows(s)
  {
    assert forall k :: 0 <= k < |Rows(s)| ==> Rows(s)[k].status == StatusOf(s, k);
    NoneAre(Rows(s), Failed);
    NoneAre(Rows(s), Skipped);
    hide TallyOf, WaitsLoosely, AllFinished;
    var tally := TallyOf(Rows(s));
    assert tally.failed == 0 && tally.skipped == 0 by { TallyHas(Rows(s)); }
    var s1 := s.(runner := Counted(tally));
    var s2 := s1.(store := s1.store.ClearControl(s.job), runner := Cleared(tally));
    t := s2.(store := s2.store.SetJobStatus(s.job, JobCompleted), runner := Closed(JobCompleted));
    RunThree(Step, s, Join, s1, Join, s2, Join, t);
  }

  lemma TallyHas(rows: seq<Row>)
    ensures TallyOf(rows).failed == |WithStatus(rows, Failed)| && TallyOf(rows).skipped == |WithStatus(rows, Skipped)|
  {
  }

  // ---- the outer deadline ----

  const STALL_MESSAGE := "Upload worker stalled — killed by outer deadline"
  const STALL_CODE := "worker_stall"

  // `run` stops waiting for its workers: it fails the rows of those that are not done, and counts.
  ghost function GaveUp(s: System): System
    requires s.job in s.store.jobs && |Rows(s)| == |s.workers|
  {
    var rows := seq(|Rows(s)|, k requires 0 <= k < |Rows(s)| =>
      if s.workers[k].pc == Finished || Terminal(Rows(s)[k].status) then Rows(s)[k]
      else Written(Rows(s)[k], Failed, Some(STALL_MESSAGE), Some(STALL_CODE)));
    s.(store := s.store.(jobs := s.store.jobs[s.job := s.store.jobs[s.job].(rows := rows)]),
       runner := Counted(TallyOf(rows)))
  }

  // It then clears the controls.  A worker that sleeps, the job being paused past the deadline,
  // sleeps for ever exactly if no thread was about to set its event.
  lemma DeadlineStrandsSleeperExactly(s: System, t: System, k: nat, e: nat)
    requires Shaped(s) && Step(GaveUp(s), Join) == Some(t)
    requires k < |s.workers| && s.workers[k].pc == Blocked(e)
    ensures SleepsForEver(t, k, e) <==> e !in s.releases
  {
    var g := GaveUp(s);
    assert WaitsSoundly(s, s.workers[k].pc);
    assert t == g.(store := g.store.ClearControl(g.job), runner := t.runner);
    assert t.store.Valid() && t.workers == s.workers && t.releases == s.releases;
    UnmappedSleeperExactly(t, k, e);
  }

  lemma GaveUpEffect(s: System)
    requires Matched(s)
    ensures Matched(GaveUp(s)) && GaveUp(s).workers == s.workers && GaveUp(s).ids == s.ids
    ensures |GaveUp(s).workers| == |s.workers| && GaveUp(s).breaker == s.breaker
    ensures DistinctIds(Rows(s)) ==> DistinctIds(Rows(GaveUp(s)))
    ensures forall k :: 0 <= k < |s.workers| ==>
      var st := StatusOf(s, k);
      StatusOf(GaveUp(s), k) == if s.workers[k].pc == Finished || Terminal(st) then st else Failed
  {
    assert forall k :: 0 <= k < |s.ids| ==> Rows(GaveUp(s))[k].accountId == Rows(s)[k].accountId;
  }

  // A worker that is merely late overwrites the `failed` it was given.
  lemma LateWorkerOverwrites(s: System, k: nat) returns (run: seq<Action>, t: System)
    requires Sound(s) && k < |s.workers| && s.workers[k].pc == AwaitUpload
    ensures var g := GaveUp(s); k < |Rows(g)| && StatusOf(g, k) == Failed && Run(Step, g, run) == Some(t)
    ensures k < |Rows(t)| && StatusOf(t, k) == Success
  {
    assert Fits(StatusOf(s, k), s.workers[k]);
    GaveUpEffect(s);
    hide RunnerFits, WaitsSoundly, Fits, GaveUp;
    run, t := UploadLands(GaveUp(s), k);
  }
}
