// The objects behind the post-job transition system: a running job whose threads take turns on
// one `ThreadSafeJobStore` and one `SyncCircuitBreaker`.  Each method is one atomic step of one
// thread, written with the calls the source makes, and is proved to be that step of
// PostJobEngine.
module PostJobExecutor {
  import opened Options
  import opened JobStore
  import opened PostJobEngine
  import opened PostJobRetry
  import opened PostJobSafety
  import opened Runs
  import SyncBreaker

  class PostJobRun {
    const job: string
    const ids: seq<string>
    const store: ThreadSafeJobStore
    const breaker: SyncBreaker.SyncCircuitBreaker
    var workers: seq<Worker>
    var runner: Runner
    var releases: multiset<nat>
    ghost var log: seq<Entry>

    ghost function View(): System
      reads this, store, breaker
    {
      System(job, ids, store.View(), workers, runner, releases, breaker.View(), log)
    }

    ghost predicate Valid()
      reads this, store
    {
      store.Valid() && |ids| == |workers| && job in store.jobs
    }

    // One worker per entry of the job's `results`.
    constructor (job: string, store: ThreadSafeJobStore, breaker: SyncBreaker.SyncCircuitBreaker)
      requires store.Valid() && job in store.jobs
      requires store.jobs[job].rows != []
      ensures Valid() && this.store == store && this.breaker == breaker && this.job == job
      ensures Launched(View(), breaker.failureThreshold, breaker.recoveryTimeout)
    {
      this.job := job;
      this.store := store;
      this.breaker := breaker;
      var rows := store.jobs[job].rows;
      ids := seq(|rows|, k requires 0 <= k < |rows| => rows[k].accountId);
      workers := seq(|rows|, k => Worker(FirstCheck, false, None));
      runner := Joining;
      releases := multiset{};
      log := [];
    }

    method MoveTo(i: nat, next: Pc)
      requires i < |workers|
      modifies this`workers
      ensures workers == old(workers)[i := old(workers)[i].(pc := next)]
    {
      workers := workers[i := workers[i].(pc := next)];
    }

    method Record(i: nat, r: SyncBreaker.Record)
      requires i < |workers|
      modifies this`workers, this`log
      ensures workers == old(workers)[i := old(workers)[i].(pc := Finished, record := Some(r))]
      ensures log == old(log) + [Entry(Some(i), r)]
    {
      workers := workers[i := workers[i].(pc := Finished, record := Some(r))];
      log := log + [Entry(Some(i), r)];
    }

    // A write to the worker's row, and where the worker goes from there.
    method Write(i: nat, st: RowStatus, message: Option<string>, code: Option<string>, next: Pc)
      requires Valid() && i < |workers|
      modifies store, this`workers
      ensures Valid()
      ensures store.View() == old(store.View()).UpdateResult(job, ids[i], st, message, code)
      ensures workers == old(workers)[i := old(workers)[i].(pc := next)]
    {
      var _ := store.UpdateResult(job, ids[i], st, message, code);
      MoveTo(i, next);
    }

    // The next step of `_upload_one` for account `i`.
    method Work(i: nat, choice: Choice) returns (moved: bool)
      requires Valid()
      modifies this, store, breaker
      ensures Valid()
      ensures Step(old(View()), PostJobEngine.Work(i, choice)) == if moved then Some(View()) else None
      ensures !moved ==> View() == old(View())
    {
      if i >= |workers| || workers[i].pc == Finished {
        moved := false;
      } else if Waits(workers[i].pc) {
        moved := CheckAndWait(i, choice);
      } else if Gates(workers[i].pc) {
        moved := PassGates(i, choice);
      } else if workers[i].pc.RecordFailure? || workers[i].pc.RecordSuccess? {
        moved := Report(i, choice);
      } else {
        moved := Upload(i, choice);
      }
    }

    static predicate Waits(pc: Pc) {
      pc.FirstCheck? || pc.ReadEvent? || pc.TestEvent? || pc.EnterWait? || pc.Blocked? || pc.SecondCheck?
    }

    static predicate Gates(pc: Pc) {
      pc.WriteSkipped? || pc.AskBreaker? || pc.WriteCircuitOpen? || pc.LookUpClient? || pc.WriteNotLoggedIn?
    }

    // The two stop checks and `wait_if_paused` between them.
    method CheckAndWait(i: nat, choice: Choice) returns (moved: bool)
      requires Valid() && i < |workers| && Waits(workers[i].pc)
      modifies this`workers
      ensures Valid()
      ensures Step(old(View()), PostJobEngine.Work(i, choice)) == if moved then Some(View()) else None
      ensures !moved ==> View() == old(View())
    {
      moved := true;
      match workers[i].pc
      case FirstCheck =>
        var stop := store.IsStopRequested(job);
        MoveTo(i, if stop then WriteSkipped else PostJobEngine.ReadEvent);
      case ReadEvent =>
        var evt := store.ReadEvent(job);
        MoveTo(i, match evt case None => SecondCheck case Some(e) => TestEvent(e));
      case TestEvent(e) =>
        if e >= |store.events| {
          moved := false;
        } else {
          MoveTo(i, if store.events[e] then SecondCheck else EnterWait(e));
        }
      case EnterWait(e) =>
        if e >= |store.events| {
          moved := false;
        } else {
          MoveTo(i, if store.events[e] then SecondCheck else Blocked(e));
        }
      case Blocked(_) =>
        moved := false;
      case SecondCheck =>
        var stop := store.IsStopRequested(job);
        MoveTo(i, if stop then WriteSkipped else AskBreaker);
    }

    // The breaker, the account's client, and the rows of those that get no further.
    method PassGates(i: nat, choice: Choice) returns (moved: bool)
      requires Valid() && i < |workers| && Gates(workers[i].pc)
      modifies this`workers, store
      ensures Valid()
      ensures Step(old(View()), PostJobEngine.Work(i, choice)) == if moved then Some(View()) else None
      ensures !moved ==> View() == old(View())
    {
      moved := true;
      match workers[i].pc
      case WriteSkipped =>
        Write(i, RowStatus.Skipped, None, None, Finished);
      case AskBreaker =>
        var allowed := breaker.AllowRequest(choice.now);
        MoveTo(i, if allowed then LookUpClient else WriteCircuitOpen);
      case WriteCircuitOpen =>
        Write(i, RowStatus.Failed, Some(CIRCUIT_OPEN_MESSAGE), Some(CIRCUIT_OPEN_CODE), Finished);
      case LookUpClient =>
        MoveTo(i, if choice.hasClient then WriteUploading else WriteNotLoggedIn);
      case WriteNotLoggedIn =>
        Write(i, RowStatus.Failed, Some(NOT_LOGGED_IN_MESSAGE), None, Finished);
    }

    // The timed upload and the row it leaves.
    method Upload(i: nat, choice: Choice) returns (moved: bool)
      requires Valid() && i < |workers|
      requires !Waits(workers[i].pc) && !Gates(workers[i].pc) && workers[i].pc != Finished
      requires !workers[i].pc.RecordFailure? && !workers[i].pc.RecordSuccess?
      modifies this`workers, store
      ensures Valid()
      ensures Step(old(View()), PostJobEngine.Work(i, choice)) == if moved then Some(View()) else None
      ensures !moved ==> View() == old(View())
    {
      moved := true;
      match workers[i].pc
      case WriteUploading =>
        Write(i, RowStatus.Uploading, None, None, Dispatch);
      case Dispatch =>
        workers := workers[i := workers[i].(pc := AwaitUpload, dispatched := true)];
      case AwaitUpload =>
        MoveTo(i, match choice.upload
                  case Uploaded => WriteSuccess
                  case TimedOut => WriteTimedOut
                  case Errored(retryable) => WriteFailed(retryable));
      case WriteTimedOut =>
        Write(i, RowStatus.Failed, None, Some(UPLOAD_TIMEOUT_CODE), PostJobEngine.RecordFailure(true));
      case WriteFailed(retryable) =>
        Write(i, RowStatus.Failed, None, None, PostJobEngine.RecordFailure(retryable));
      case WriteSuccess =>
        Write(i, RowStatus.Success, None, None, PostJobEngine.RecordSuccess);
    }

    // The record with the shared breaker.
    method Report(i: nat, choice: Choice) returns (moved: bool)
      requires Valid() && i < |workers| && (workers[i].pc.RecordFailure? || workers[i].pc.RecordSuccess?)
      modifies this`workers, this`log, breaker
      ensures Valid()
      ensures Step(old(View()), PostJobEngine.Work(i, choice)) == if moved then Some(View()) else None
      ensures !moved ==> View() == old(View())
    {
      if workers[i].pc.RecordFailure? {
        var retryable := workers[i].pc.retryable;
        breaker.RecordFailure(retryable, choice.now);
        Record(i, SyncBreaker.Failure(retryable, choice.now));
      } else {
        breaker.RecordSuccess();
        Record(i, SyncBreaker.Success);
      }
      moved := true;
    }

    method Everyone() returns (done: bool)
      ensures done == AllFinished(View())
    {
      var k := 0;
      while k < |workers|
        invariant 0 <= k <= |workers|
        invariant forall i :: 0 <= i < k ==> workers[i].pc == Finished
      {
        if workers[k].pc != Finished {
          return false;
        }
        k := k + 1;
      }
      return true;
    }

    // The next step of `run` once the workers are submitted: count, clear, write the status.
    method Join() returns (moved: bool)
      requires Valid()
      modifies this, store
      ensures Valid()
      ensures Step(old(View()), PostJobEngine.Join) == if moved then Some(View()) else None
      ensures !moved ==> View() == old(View())
    {
      match runner {
      case Joining =>
        var done := Everyone();
        if !done {
          return false;
        }
        var _, tally := store.TallyResults(job);
        runner := Counted(tally);
      case Counted(tally) =>
        store.ClearControl(job);
        runner := Cleared(tally);
      case Cleared(tally) =>
        var final;
        if tally.skipped > 0 && tally.success == 0 && tally.failed == 0 {
          final := JobStopped;
        } else if tally.skipped > 0 {
          final := JobPartial;
        } else if tally.failed == 0 {
          final := JobCompleted;
        } else if tally.success == 0 {
          final := JobFailed;
        } else {
          final := JobPartial;
        }
        var _ := store.SetJobStatus(job, final);
        runner := Closed(final);
      case Closed(_) =>
        return false;
      }
      return true;
    }

    // The two halves of `request_stop`, of this or another job.
    method FlagStop(j: string)
      requires Valid()
      modifies this`releases, store
      ensures Valid()
      ensures Step(old(View()), PostJobEngine.FlagStop(j)) == Some(View())
    {
      var evt := store.FlagStop(j);
      if evt.Some? {
        releases := releases + multiset{evt.value};
      }
    }

    method Release(e: nat)
      requires Valid() && e in releases && e < |store.events|
      modifies this`releases, this`workers, store
      ensures Valid()
      ensures Step(old(View()), PostJobEngine.Release(e)) == Some(View())
    {
      store.SetEvent(e);
      releases := releases - multiset{e};
      workers := Woken(workers, e);
    }

    method Pause(j: string)
      requires Valid()
      modifies store
      ensures Valid()
      ensures Step(old(View()), PostJobEngine.Pause(j)) == Some(View())
    {
      store.RequestPause(j);
    }

    method ReadForResume(j: string)
      modifies this`releases
      ensures Step(old(View()), PostJobEngine.ReadForResume(j)) == Some(View())
    {
      var evt := store.ReadEvent(j);
      if evt.Some? {
        releases := releases + multiset{evt.value};
      }
    }

    // ---- a whole run ----

    // Whatever thread is scheduled takes its step, if it can take one.
    method Take(a: Action) returns (taken: bool)
      requires Valid()
      modifies this, store, breaker
      ensures Valid()
      ensures Step(old(View()), a) == if taken then Some(View()) else None
      ensures !taken ==> View() == old(View())
    {
      match a {
        case Work(i, choice) => taken := Work(i, choice);
        case Join => taken := Join();
        case FlagStop(j) => FlagStop(j); taken := true;
        case ReadForResume(j) => ReadForResume(j); taken := true;
        case Release(e) =>
          taken := e in releases && e < |store.events|;
          if taken {
            Release(e);
          }
        case Pause(j) => Pause(j); taken := true;
        case SetStatus(j, st) => var _ := store.SetJobStatus(j, st); taken := true;
        case OtherUpdate(j, id, st) =>
          taken := j != job;
          if taken {
            var _ := store.UpdateResult(j, id, st, None, None);
          }
        case OtherClear(j) =>
          taken := j != job;
          if taken {
            store.ClearControl(j);
          }
        case OtherRecord(r) => Elsewhere(r); taken := true;
      }
    }

    // A worker of another job reports to the shared breaker.
    method Elsewhere(r: SyncBreaker.Record)
      modifies breaker, this`log
      ensures Step(old(View()), OtherRecord(r)) == Some(View())
    {
      match r {
        case Success => breaker.RecordSuccess();
        case Failure(retryable, at) => breaker.RecordFailure(retryable, at);
      }
      log := log + [Entry(None, r)];
    }

    // The retry route clears the controls of the job ...
    method RetryClears()
      requires Valid()
      modifies store
      ensures Valid()
      ensures AnyStep(old(View()), Event.RetryClears) == Some(View())
    {
      store.ClearControl(job);
    }

    // ... and puts the reset job in place of the one that runs, if its status can be retried.
    method RetryResets() returns (retried: bool)
      requires Valid()
      modifies store
      ensures Valid()
      ensures AnyStep(old(View()), Event.RetryResets) == if retried then Some(View()) else None
      ensures !retried ==> View() == old(View())
    {
      var found := store.Get(job);
      var updated := RetryJob(found);
      retried := updated.Some?;
      if retried {
        store.Put(job, updated.value);
      }
    }

    method TakeAny(e: Event) returns (taken: bool)
      requires Valid()
      modifies this, store, breaker
      ensures Valid()
      ensures AnyStep(old(View()), e) == if taken then Some(View()) else None
      ensures !taken ==> View() == old(View())
    {
      match e {
        case Ordinary(a) => taken := Take(a);
        case RetryClears => RetryClears(); taken := true;
        case RetryResets => taken := RetryResets();
      }
    }

    // The job under any schedule of its threads, operators, retries and the other jobs.  If nobody
    // retries it and it closes, every row in the store is terminal and the runner's final status says
    // what happened to them.
    method Interleave(schedule: seq<Event>)
      requires Valid()
      modifies this, store, breaker
      ensures Valid() && View() == Played(old(View()), schedule)
      ensures Launched(old(View()), old(View()).breaker.threshold, old(View()).breaker.timeout)
              && DistinctIds(old(store.jobs[job].rows)) && (forall e :: e in schedule ==> e.Ordinary?)
              && runner.Closed? ==>
        var rows := store.jobs[job].rows;
        && (forall k :: 0 <= k < |rows| ==> Terminal(rows[k].status))
        && (runner.final == JobCompleted <==> AllAre(rows, Success))
        && (runner.final == JobFailed <==> AllAre(rows, Failed))
        && (runner.final == JobStopped <==> AllAre(rows, Skipped))
    {
      ghost var start := View();
      for k := 0 to |schedule|
        invariant Valid() && View() == Played(start, schedule[..k])
      {
        assert schedule[..k + 1][..k] == schedule[..k];
        var _ := TakeAny(schedule[k]);
        hide AnyStep;
      }
      assert schedule[..|schedule|] == schedule;
      ghost var end := View();
      ghost var threshold, timeout := start.breaker.threshold, start.breaker.timeout;
      if Launched(start, threshold, timeout) && DistinctIds(Rows(start)) && (forall e :: e in schedule ==> e.Ordinary?)
        && runner.Closed? {
        ghost var run := PlayedIsOrdinary(start, schedule);
        EveryRunEndsCounted(threshold, timeout, start, run, end);
        assert forall k :: 0 <= k < |Rows(end)| ==> StatusOf(end, k) == Rows(end)[k].status;
      }
    }
  }
}
