// What becomes of a worker and its row, told by the decisions it meets: the stop flag, the breaker's
// history, the client, and how the upload ends.
module PostJobOutcomes {
  import opened Options
  import opened Runs
  import opened JobStore
  import opened PostJobEngine
  import opened PostJobSafety
  import opened PostJobControl
  import opened PostJobWaiting
  import opened SyncBreaker

  datatype Fate = IsSkipped | MeetsOpenCircuit | LacksClient | TimesOut | Fails(retryable: bool) | Succeeds

  // How a worker with this fate is left, and what its account's row then says.
  predicate Ended(fate: Fate, w: Worker, row: Row) {
    && w.pc == Finished
    && match fate
       case IsSkipped => row.status == RowStatus.Skipped && !w.dispatched && w.record == None
       case MeetsOpenCircuit =>
         && row.status == Failed && !w.dispatched && w.record == None
         && row.errorCode == Some("circuit_open")
         && row.error == Some("Instagram API circuit open — too many recent failures, will retry later")
       case LacksClient =>
         && row.status == Failed && !w.dispatched && w.record == None
         && row.error == Some("Account not logged in")
       case TimesOut =>
         && row.status == Failed && w.dispatched && row.errorCode == Some("upload_timeout")
         && w.record.Some? && w.record.value.Failure? && w.record.value.retryable
       case Fails(retryable) =>
         && row.status == Failed && w.dispatched
         && w.record.Some? && w.record.value.Failure? && w.record.value.retryable == retryable
       case Succeeds =>
         row.status == RowStatus.Success && w.dispatched && w.record == Some(SyncBreaker.Success)
  }

  // On the way there: the last decision is taken.
  predicate Destined(fate: Fate, w: Worker, row: Row) {
    || Ended(fate, w, row)
    || match fate
       case IsSkipped => w == Worker(WriteSkipped, false, None)
       case MeetsOpenCircuit => w == Worker(WriteCircuitOpen, false, None)
       case LacksClient => w == Worker(WriteNotLoggedIn, false, None)
       case TimesOut =>
         || w == Worker(WriteTimedOut, true, None)
         || (w == Worker(Pc.RecordFailure(true), true, None) && row.status == Failed
             && row.errorCode == Some("upload_timeout"))
       case Fails(retryable) =>
         || w == Worker(Pc.WriteFailed(retryable), true, None)
         || (w == Worker(Pc.RecordFailure(retryable), true, None) && row.status == Failed)
       case Succeeds =>
         || w == Worker(WriteSuccess, true, None)
         || (w == Worker(Pc.RecordSuccess, true, None) && row.status == RowStatus.Success)
  }

  // A worker's step writes its own row alone: status, and message and code where there are any.
  lemma WorkWritesRow(s: System, i: nat, c: Choice, t: System)
    requires Sound(s) && Step(s, Work(i, c)) == Some(t)
    ensures |Rows(t)| == |Rows(s)| && i < |Rows(s)|
    ensures forall k :: 0 <= k < |Rows(s)| && k != i ==> Rows(t)[k] == Rows(s)[k]
    ensures Rows(t)[i] == match WritesAt(s.workers[i].pc)
                          case None => Rows(s)[i]
                          case Some(st) => Written(Rows(s)[i], st, MessageAt(s.workers[i].pc), CodeAt(s.workers[i].pc))
  {
    WorkEffect(s, i, c, t);
    hide Step, AfterPc;
    FirstOfDistinct(Rows(s), i);
  }

  lemma WorkerStaysDestined(fate: Fate, s: System, w: Worker, row: Row, c: Choice, next: Pc)
    requires Destined(fate, w, row) && AfterPc(w.pc, s, c) == Some(next)
    ensures Destined(fate, WorkerAfter(w, next, c),
                     match WritesAt(w.pc)
                     case None => row
                     case Some(st) => Written(row, st, MessageAt(w.pc), CodeAt(w.pc)))
  {
  }

  ghost predicate IsDestined(fate: Fate, s: System, k: nat) {
    k < |s.workers| && k < |Rows(s)| && Destined(fate, s.workers[k], Rows(s)[k])
  }

  lemma StepKeepsDestiny(fate: Fate, s: System, a: Action, t: System, k: nat)
    requires Sound(s) && Step(s, a) == Some(t) && IsDestined(fate, s, k)
    ensures IsDestined(fate, t, k)
  {
    if a.Work? {
      WorkEffect(s, a.i, a.choice, t);
      WorkWritesRow(s, a.i, a.choice, t);
      if a.i == k {
        WorkerStaysDestined(fate, s, s.workers[k], Rows(s)[k], a.choice,
                            AfterPc(s.workers[k].pc, s, a.choice).value);
      }
      hide Step, Destined, AfterPc, Fits, RunnerFits, WaitsSoundly;
    } else if a.Join? {
      JoinKeepsSound(s, t);
      hide Step, Destined;
    } else {
      OthersLeaveRows(s, a, t);
      assert !s.workers[k].pc.Blocked?;
      hide Step, Destined;
    }
  }

  lemma {:induction false} RunKeepsDestiny(fate: Fate, s: System, run: seq<Action>, t: System, k: nat)
    requires Sound(s) && Run(Step, s, run) == Some(t) && IsDestined(fate, s, k)
    ensures IsDestined(fate, t, k)
  {
    hide Step, IsDestined, RunnerFits, WaitsSoundly, Fits;
    if run == [] {
    } else {
      var u := Run(Step, s, run[..|run| - 1]).value;
      RunKeepsDestiny(fate, s, run[..|run| - 1], u, k);
      RunKeepsSound(s, run[..|run| - 1], u);
      StepKeepsDestiny(fate, u, run[|run| - 1], t, k);
    }
  }

  // Whatever happens from here on, this is how the worker ends when it ends.
  ghost predicate Bound(fate: Fate, s: System, k: nat) {
    forall run, t :: Run(Step, s, run) == Some(t) ==> EndsOnlyAs(fate, t, k)
  }

  // If the worker has ended it has this fate; and unless that is one of an upload, it has started none.
  ghost predicate EndsOnlyAs(fate: Fate, t: System, k: nat) {
    && k < |t.workers| && k < |Rows(t)|
    && (t.workers[k].pc == Finished ==> Ended(fate, t.workers[k], Rows(t)[k]))
    && (!fate.TimesOut? && !fate.Fails? && !fate.Succeeds? ==> !t.workers[k].dispatched)
  }

  lemma DestinedIsBound(fate: Fate, s: System, k: nat)
    requires Sound(s) && IsDestined(fate, s, k)
    ensures Bound(fate, s, k)
  {
    hide Step, RunnerFits, WaitsSoundly, Fits, EndsOnlyAs, IsDestined, Run;
    forall run, t | Run(Step, s, run) == Some(t) ensures EndsOnlyAs(fate, t, k) {
      RunKeepsDestiny(fate, s, run, t, k);
      DestinedEnds(fate, t, k);
    }
  }

  lemma DestinedEnds(fate: Fate, s: System, k: nat)
    requires IsDestined(fate, s, k)
    ensures EndsOnlyAs(fate, s, k)
  {
  }

  // ---- the decisions ----

  // A worker at either of its stop checks is skipped exactly if the flag is up.
  lemma StopDecides(s: System, k: nat, c: Choice, t: System)
    requires Sound(s) && Step(s, Work(k, c)) == Some(t)
    requires s.workers[k].pc == FirstCheck || s.workers[k].pc == SecondCheck
    ensures if s.store.StopRequested(s.job) then Bound(IsSkipped, t, k)
            else k < |t.workers| && t.workers[k].pc == if s.workers[k].pc == FirstCheck then ReadEvent else AskBreaker
  {
    assert Fits(StatusOf(s, k), s.workers[k]);
    WorkEffect(s, k, c, t);
    WorkKeepsSound(s, k, c, t);
    if s.store.StopRequested(s.job) {
      assert IsDestined(IsSkipped, t, k);
      DestinedIsBound(IsSkipped, t, k);
    }
    hide Step, Bound;
  }

  // A worker that finds no event, or a set one, goes on to its second check; with an unset one it goes
  // to sleep.
  lemma PauseDecides(s: System, k: nat, c: Choice, t: System)
    requires Sound(s) && Step(s, Work(k, c)) == Some(t)
    ensures k < |s.workers| && k < |t.workers|
    ensures s.workers[k].pc == ReadEvent ==>
      t.workers[k].pc == match s.store.PauseEvent(s.job) case None => SecondCheck case Some(e) => TestEvent(e)
    ensures s.workers[k].pc.TestEvent? || s.workers[k].pc.EnterWait? ==>
      (t.workers[k].pc == SecondCheck <==> !s.store.Paused(s.job))
    ensures s.workers[k].pc.EnterWait? ==> (t.workers[k].pc.Blocked? <==> s.store.Paused(s.job))
  {
    WorkEffect(s, k, c, t);
    assert WaitsSoundly(s, s.workers[k].pc);
    hide Step;
  }

  // The history refuses requests at `now`: as many retryable failures as the threshold have followed
  // the last success, and the newest of them is not the recovery timeout old.
  ghost predicate Refuses(h: seq<Record>, threshold: int, timeout: real, now: real) {
    && |Streak(h)| >= threshold
    && exists k: nat :: LatestOf(k, Streak(h)) && now - h[k].at < timeout
  }

  // The history behind the upload breaker: what was recorded before the launch, and since.
  ghost function History(past: seq<Record>, s: System): seq<Record> {
    past + RecordsOf(s.log)
  }

  lemma {:induction false} ReplayConcat(b: Breaker, h: seq<Record>, more: seq<Record>)
    ensures Replay(b, h + more) == Replay(Replay(b, h), more)
  {
    if more == [] {
      assert h + more == h;
    } else {
      var n := |more| - 1;
      ReplayConcat(b, h, more[..n]);
      assert (h + more)[..|h + more| - 1] == h + more[..n];
    }
  }

  lemma BreakerIsHistory(
    threshold: int, timeout: real, past: seq<Record>, s0: System, before: seq<Action>, s: System)
    requires Launched(s0, threshold, timeout) && DistinctIds(Rows(s0))
    requires s0.breaker == Replay(Fresh(threshold, timeout), past) && Run(Step, s0, before) == Some(s)
    ensures s.breaker == Replay(Fresh(threshold, timeout), History(past, s))
  {
    LaunchedIsSound(s0, threshold, timeout);
    NothingIsRecordedYet(s0, threshold, timeout);
    hide Step, Launched;
    BreakerReplaysLog(s0, before, s);
    ReplayConcat(Fresh(threshold, timeout), past, RecordsOf(s.log));
  }

  ghost predicate MayUpload(s: System, k: nat) {
    exists run, t :: Run(Step, s, run) == Some(t) && k < |t.workers| && t.workers[k].dispatched
  }

  // A worker asks the breaker at `now`, in any run of the job: it is refused exactly if the history
  // refuses -- then it starts no upload whatever follows, and ends with its row failed as
  // "circuit_open" -- and otherwise goes on to look up its client, and can upload.
  lemma BreakerDecides(
    threshold: int, timeout: real, past: seq<Record>, s0: System, before: seq<Action>, s: System,
    k: nat, c: Choice, t: System)
    requires Launched(s0, threshold, timeout) && DistinctIds(Rows(s0))
    requires s0.breaker == Replay(Fresh(threshold, timeout), past) && Run(Step, s0, before) == Some(s)
    requires Step(s, Work(k, c)) == Some(t) && s.workers[k].pc == AskBreaker
    ensures Bound(MeetsOpenCircuit, t, k) <==> Refuses(History(past, s), threshold, timeout, c.now)
    ensures MayUpload(t, k) <==> !Refuses(History(past, s), threshold, timeout, c.now)
    ensures k < |t.workers|
    ensures t.workers[k].pc == LookUpClient <==> !Refuses(History(past, s), threshold, timeout, c.now)
  {
    LaunchedIsSound(s0, threshold, timeout);
    BreakerIsHistory(threshold, timeout, past, s0, before, s);
    RefusesExactly(threshold, timeout, History(past, s), c.now);
    assert s.breaker.Allows(c.now) <==> !Refuses(History(past, s), threshold, timeout, c.now);
    hide Step, Launched, Refuses;
    RunKeepsSound(s0, before, s);
    AskedWorker(s, k, c, t);
  }

  lemma UploadOrBound(fate: Fate, s: System, k: nat)
    requires !fate.TimesOut? && !fate.Fails? && !fate.Succeeds?
    ensures !(MayUpload(s, k) && Bound(fate, s, k))
  {
    hide Step, Ended;
    if MayUpload(s, k) {
      var run, t :| Run(Step, s, run) == Some(t) && k < |t.workers| && t.workers[k].dispatched;
      assert !EndsOnlyAs(fate, t, k);
    }
  }

  lemma AskedWorker(s: System, k: nat, c: Choice, t: System)
    requires Sound(s) && Step(s, Work(k, c)) == Some(t) && s.workers[k].pc == AskBreaker
    ensures k < |t.workers|
    ensures Bound(MeetsOpenCircuit, t, k) <==> !s.breaker.Allows(c.now)
    ensures MayUpload(t, k) <==> s.breaker.Allows(c.now)
    ensures t.workers[k].pc == LookUpClient <==> s.breaker.Allows(c.now)
  {
    assert Fits(StatusOf(s, k), s.workers[k]);
    WorkEffect(s, k, c, t);
    WorkKeepsSound(s, k, c, t);
    UploadOrBound(MeetsOpenCircuit, t, k);
    assert !s.breaker.Allows(c.now) ==> IsDestined(MeetsOpenCircuit, t, k);
    hide Step, Fits, RunnerFits, WaitsSoundly, Bound, IsDestined;
    if s.breaker.Allows(c.now) {
      var run, u := UploadsWithClient(t, k);
      assert MayUpload(t, k);
    } else {
      DestinedIsBound(MeetsOpenCircuit, t, k);
    }
  }

  lemma UploadsWithClient(s: System, k: nat) returns (run: seq<Action>, t: System)
    requires k < |s.workers| && k < |s.ids| && s.workers[k].pc == LookUpClient
    ensures Run(Step, s, run) == Some(t) && k < |t.workers| && t.workers[k].dispatched
  {
    var a := Work(k, Choice(0.0, true, Uploaded));
    var s1 := Step(s, a).value;
    WorkEffect(s, k, a.choice, s1);
    var s2 := Step(s1, a).value;
    WorkEffect(s1, k, a.choice, s2);
    t := Step(s2, a).value;
    WorkEffect(s2, k, a.choice, t);
    hide Step;
    RunThree(Step, s, a, s1, a, s2, a, t);
    run := [a, a, a];
  }

  // A worker that looks up its client: without one its row fails, with one it goes on to `uploading`.
  lemma ClientDecides(s: System, k: nat, c: Choice, t: System)
    requires Sound(s) && Step(s, Work(k, c)) == Some(t) && s.workers[k].pc == LookUpClient
    ensures k < |t.workers|
    ensures c.hasClient <==> MayUpload(t, k)
    ensures !c.hasClient <==> Bound(LacksClient, t, k)
    ensures c.hasClient <==> t.workers[k].pc == WriteUploading
  {
    assert Fits(StatusOf(s, k), s.workers[k]);
    WorkEffect(s, k, c, t);
    WorkKeepsSound(s, k, c, t);
    UploadOrBound(LacksClient, t, k);
    assert !c.hasClient ==> IsDestined(LacksClient, t, k);
    hide Step, Fits, RunnerFits, WaitsSoundly, Bound, IsDestined;
    if c.hasClient {
      var run, u := UploadsNext(t, k);
      assert MayUpload(t, k);
    } else {
      DestinedIsBound(LacksClient, t, k);
    }
  }

  lemma UploadsNext(s: System, k: nat) returns (run: seq<Action>, t: System)
    requires k < |s.workers| && k < |s.ids| && s.workers[k].pc == WriteUploading
    ensures Run(Step, s, run) == Some(t) && k < |t.workers| && t.workers[k].dispatched
  {
    var a := Work(k, Choice(0.0, true, Uploaded));
    var u := Step(s, a).value;
    WorkEffect(s, k, a.choice, u);
    t := Step(u, a).value;
    WorkEffect(u, k, a.choice, t);
    hide Step;
    RunOne(Step, s, [], a);
    RunOne(Step, s, [] + [a], a);
    run := [] + [a] + [a];
  }

  // A worker marked for upload says so in its row, and then starts it.
  lemma UploadIsAnnounced(s: System, k: nat, c: Choice, t: System)
    requires Sound(s) && Step(s, Work(k, c)) == Some(t)
    requires s.workers[k].pc == WriteUploading || s.workers[k].pc == Dispatch
    ensures k < |t.workers| && k < |Rows(t)| && StatusOf(t, k) == Uploading
    ensures t.workers[k].pc == if s.workers[k].pc == Dispatch then AwaitUpload else Dispatch
    ensures t.workers[k].dispatched <==> s.workers[k].pc == Dispatch
  {
    assert Fits(StatusOf(s, k), s.workers[k]);
    WorkEffect(s, k, c, t);
    WorkWritesOwnRow(s, k, c, t);
    hide Step;
  }

  function FateOf(upload: Upload): Fate {
    match upload
    case Uploaded => Succeeds
    case TimedOut => TimesOut
    case Errored(retryable) => Fails(retryable)
  }

  // How the upload ends decides the row and what the breaker is told.
  lemma UploadDecides(s: System, k: nat, c: Choice, t: System)
    requires Sound(s) && Step(s, Work(k, c)) == Some(t) && s.workers[k].pc == AwaitUpload
    ensures c.upload == Uploaded ==> Bound(Succeeds, t, k)
    ensures c.upload == TimedOut ==> Bound(TimesOut, t, k)
    ensures c.upload.Errored? ==> Bound(Fails(c.upload.retryable), t, k)
  {
    assert Fits(StatusOf(s, k), s.workers[k]);
    WorkEffect(s, k, c, t);
    WorkKeepsSound(s, k, c, t);
    assert IsDestined(FateOf(c.upload), t, k);
    DestinedIsBound(FateOf(c.upload), t, k);
    hide Step, Bound;
  }

  // What the breaker is told, and when: a worker of this job records once, with the clock of that
  // very step.
  lemma RecordsExactly(s: System, a: Action, t: System)
    requires Step(s, a) == Some(t) && a.Work?
    ensures a.i < |s.workers| && a.i < |t.workers|
    ensures match s.workers[a.i].pc
            case RecordFailure(retryable) =>
              && t.log == s.log + [Entry(Some(a.i), SyncBreaker.Failure(retryable, a.choice.now))]
              && t.workers[a.i].record == Some(SyncBreaker.Failure(retryable, a.choice.now))
            case RecordSuccess =>
              && t.log == s.log + [Entry(Some(a.i), SyncBreaker.Success)]
              && t.workers[a.i].record == Some(SyncBreaker.Success)
            case _ => t.log == s.log && t.workers[a.i].record == s.workers[a.i].record
  {
    WorkEffect(s, a.i, a.choice, t);
  }
}
