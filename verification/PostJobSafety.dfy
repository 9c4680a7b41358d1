// What every interleaving of a post job keeps, whatever its rows hold at the start: the tally, the
// final status and the books of the shared breaker.  Accounts are distinct throughout;
// PostJobDuplicates says what happens when they are not, PostJobLifecycle what becomes of one row.
module PostJobSafety {
  import opened Options
  import opened Runs
  import opened JobStore
  import opened PostJobEngine
  import SyncBreaker

  function StatusOf(s: System, i: nat): RowStatus
    requires i < |Rows(s)|
  {
    Rows(s)[i].status
  }

  // What a row can hold while its worker stands where it does, and what the worker has done.
  predicate Fits(st: RowStatus, w: Worker) {
    match w.pc
    case Dispatch => st == Uploading && !w.dispatched && w.record == None
    case AwaitUpload => st == Uploading && w.dispatched && w.record == None
    case WriteTimedOut => st == Uploading && w.dispatched && w.record == None
    case WriteFailed(_) => st == Uploading && w.dispatched && w.record == None
    case WriteSuccess => st == Uploading && w.dispatched && w.record == None
    case RecordFailure(_) => st == Failed && w.dispatched && w.record == None
    case RecordSuccess => st == Success && w.dispatched && w.record == None
    case Finished =>
      && Terminal(st)
      && w.dispatched == w.record.Some?
      && (st == Skipped ==> !w.dispatched)
      && (st == Success ==> w.record == Some(SyncBreaker.Success))
      && (st == Failed && w.dispatched ==> w.record.value.Failure?)
    case _ => !w.dispatched && w.record == None
  }

  // The worker has written nothing to its account's row so far.
  predicate Untouched(pc: Pc) {
    || BeforeSecondCheck(pc) || pc.AskBreaker? || pc.WriteCircuitOpen? || pc.LookUpClient?
    || pc.WriteNotLoggedIn? || pc.WriteUploading?
  }

  // The second stop check is still ahead, or has just said stop.
  predicate BeforeSecondCheck(pc: Pc) {
    pc.FirstCheck? || pc.ReadEvent? || pc.TestEvent? || pc.EnterWait? || pc.Blocked? || pc.SecondCheck?
    || pc.WriteSkipped?
  }

  // A worker inside `wait_if_paused` holds the job's current event, and sleeps only on an unset one.
  ghost predicate WaitsSoundly(s: System, pc: Pc) {
    match pc
    case TestEvent(e) => s.store.PauseEvent(s.job) == Some(e)
    case EnterWait(e) => s.store.PauseEvent(s.job) == Some(e)
    case Blocked(e) => s.store.PauseEvent(s.job) == Some(e) && s.store.Paused(s.job)
    case _ => true
  }

  ghost predicate RunnerFits(s: System) {
    match s.runner
    case Joining => true
    case Counted(tally) => AllFinished(s) && tally == TallyOf(Rows(s))
    case Cleared(tally) => AllFinished(s) && tally == TallyOf(Rows(s))
    case Closed(final) => AllFinished(s) && final == FinalStatus(TallyOf(Rows(s)))
  }

  // The shape that needs no assumption about the accounts.
  ghost predicate Shaped(s: System) {
    && s.store.Valid()
    && s.job in s.store.jobs
    && |Rows(s)| == |s.ids| == |s.workers| >= 1
    && (forall i :: 0 <= i < |s.ids| ==> Rows(s)[i].accountId == s.ids[i])
    && (forall e :: e in s.releases ==> e < |s.store.events|)
    && (forall i :: 0 <= i < |s.workers| ==> WaitsSoundly(s, s.workers[i].pc))
    && RunnerFits(s)
  }

  ghost predicate Sound(s: System) {
    && Shaped(s)
    && DistinctIds(Rows(s))
    && (forall i :: 0 <= i < |s.workers| ==> Fits(StatusOf(s, i), s.workers[i]))
  }

  // A worker's step, spelled out.
  lemma WorkEffect(s: System, i: nat, c: Choice, t: System)
    requires Step(s, Work(i, c)) == Some(t)
    ensures i < |s.workers| && i < |s.ids| && AfterPc(s.workers[i].pc, s, c).Some?
    ensures var w := s.workers[i];
            t.workers == s.workers[i := WorkerAfter(w, AfterPc(w.pc, s, c).value, c)]
    ensures t.store == StoreAfter(s, i)
    ensures t.job == s.job && t.ids == s.ids && t.runner == s.runner && t.releases == s.releases
    ensures match RecordsAt(s.workers[i].pc, c.now)
            case None => t.log == s.log && t.breaker == s.breaker
            case Some(r) => t.log == s.log + [Entry(Some(i), r)] && t.breaker == s.breaker.Recorded(r)
  {
  }

  lemma WorkKeepsWaits(s: System, i: nat, c: Choice, t: System)
    requires Shaped(s) && Step(s, Work(i, c)) == Some(t)
    ensures forall k :: 0 <= k < |t.workers| ==> WaitsSoundly(t, t.workers[k].pc)
  {
    WorkEffect(s, i, c, t);
    hide Step, RunnerFits;
    assert t.store.pauseEvents == s.store.pauseEvents && t.store.events == s.store.events;
    forall k | 0 <= k < |t.workers| ensures WaitsSoundly(t, t.workers[k].pc) {
      assert WaitsSoundly(s, s.workers[k].pc);
    }
  }

  lemma WorkKeepsShaped(s: System, i: nat, c: Choice, t: System)
    requires Shaped(s) && Step(s, Work(i, c)) == Some(t)
    ensures Shaped(t) && s.runner == Joining
  {
    WorkEffect(s, i, c, t);
    WorkKeepsWaits(s, i, c, t);
    hide Step, WaitsSoundly;
    assert s.workers[i].pc != Finished;
  }

  // The steps that are neither a worker's nor the runner's leave rows, runner and history alone;
  // a worker either stays where it is or wakes.
  lemma OthersLeaveRows(s: System, a: Action, t: System)
    requires Step(s, a) == Some(t) && !a.Work? && !a.Join?
    ensures Rows(t) == Rows(s) && t.runner == s.runner && t.ids == s.ids && t.job == s.job
    ensures s.job in s.store.jobs ==> t.job in t.store.jobs
    ensures |t.workers| == |s.workers|
    ensures forall i :: 0 <= i < |s.workers| ==>
      t.workers[i] == s.workers[i]
      || (s.workers[i].pc.Blocked? && t.workers[i] == s.workers[i].(pc := SecondCheck))
  {
  }

  lemma ReleaseKeepsWaits(s: System, e: nat, t: System)
    requires Shaped(s) && Step(s, Release(e)) == Some(t)
    ensures forall i :: 0 <= i < |t.workers| ==> WaitsSoundly(t, t.workers[i].pc)
  {
    forall i | 0 <= i < |t.workers| ensures WaitsSoundly(t, t.workers[i].pc) {
      assert WaitsSoundly(s, s.workers[i].pc);
    }
  }

  lemma PauseKeepsWaits(s: System, j: string, t: System)
    requires Shaped(s) && Step(s, Pause(j)) == Some(t)
    ensures forall i :: 0 <= i < |t.workers| ==> WaitsSoundly(t, t.workers[i].pc)
  {
    assert s.store.Paused(s.job) ==> t.store.Paused(s.job);
    forall i | 0 <= i < |t.workers| ensures WaitsSoundly(t, t.workers[i].pc) {
      assert WaitsSoundly(s, s.workers[i].pc);
    }
  }

  lemma OthersKeepWaits(s: System, a: Action, t: System)
    requires Shaped(s) && Step(s, a) == Some(t) && !a.Work? && !a.Join?
    ensures forall i :: 0 <= i < |t.workers| ==> WaitsSoundly(t, t.workers[i].pc)
  {
    if a.Release? {
      ReleaseKeepsWaits(s, a.evt, t);
    } else if a.Pause? {
      PauseKeepsWaits(s, a.j, t);
    } else {
      assert t.store.events == s.store.events && t.workers == s.workers;
      assert t.store.PauseEvent(s.job) == s.store.PauseEvent(s.job);
      forall i | 0 <= i < |t.workers| ensures WaitsSoundly(t, t.workers[i].pc) {
        assert WaitsSoundly(s, s.workers[i].pc);
      }
    }
  }

  lemma OthersKeepStore(s: System, a: Action, t: System)
    requires s.store.Valid() && (forall e :: e in s.releases ==> e < |s.store.events|)
    requires Step(s, a) == Some(t) && !a.Work? && !a.Join?
    ensures t.store.Valid() && forall e :: e in t.releases ==> e < |t.store.events|
  {
    OthersGrowEvents(s, a, t);
    if a.Pause? {
      assert t.releases == s.releases;
    } else {
      OthersKeepTable(s, a, t);
      hide Step;
    }
  }

  lemma OthersGrowEvents(s: System, a: Action, t: System)
    requires Step(s, a) == Some(t) && !a.Work? && !a.Join?
    ensures |t.store.events| >= |s.store.events|
    ensures !a.Pause? ==> forall j :: j in t.store.pauseEvents ==>
              j in s.store.pauseEvents && t.store.pauseEvents[j] == s.store.pauseEvents[j]
  {
  }

  lemma OthersKeepTable(s: System, a: Action, t: System)
    requires s.store.Valid() && Step(s, a) == Some(t) && !a.Work? && !a.Join? && !a.Pause?
    ensures forall e :: e in t.releases ==> e in s.releases || e < |s.store.events|
  {
    if a.FlagStop? || a.ReadForResume? {
      assert t.releases == ReadForRelease(s, a.j);
    }
  }

  lemma OthersKeepShaped(s: System, a: Action, t: System)
    requires Shaped(s) && Step(s, a) == Some(t) && !a.Work? && !a.Join?
    ensures Shaped(t)
  {
    hide Step;
    OthersLeaveRows(s, a, t);
    OthersKeepWaits(s, a, t);
    OthersKeepStore(s, a, t);
    assert AllFinished(s) ==> AllFinished(t);
  }

  // A worker's write lands on the first row of its account, and on no other.
  lemma WorkWritesLeader(s: System, i: nat, c: Choice, t: System)
    requires Shaped(s) && Step(s, Work(i, c)) == Some(t)
    ensures |Rows(t)| == |Rows(s)| && i < |s.ids|
    ensures forall k :: 0 <= k < |Rows(s)| ==>
      && Rows(t)[k].accountId == Rows(s)[k].accountId
      && StatusOf(t, k) == if k == FirstOf(Rows(s), s.ids[i]) && WritesAt(s.workers[i].pc).Some?
                           then WritesAt(s.workers[i].pc).value else StatusOf(s, k)
    ensures FirstOf(Rows(s), s.ids[i]) < |Rows(s)|
  {
    WorkEffect(s, i, c, t);
    hide Step;
    assert Rows(s)[i].accountId == s.ids[i];
  }

  // With distinct accounts a worker writes its own row and no other.
  lemma WorkWritesOwnRow(s: System, i: nat, c: Choice, t: System)
    requires |Rows(s)| == |s.ids| && DistinctIds(Rows(s)) && Step(s, Work(i, c)) == Some(t)
    requires forall k :: 0 <= k < |s.ids| ==> Rows(s)[k].accountId == s.ids[k]
    ensures |Rows(t)| == |Rows(s)|
    ensures forall k :: 0 <= k < |Rows(s)| ==>
      && Rows(t)[k].accountId == Rows(s)[k].accountId
      && StatusOf(t, k) == if k == i && WritesAt(s.workers[i].pc).Some?
                           then WritesAt(s.workers[i].pc).value else StatusOf(s, k)
  {
    WorkEffect(s, i, c, t);
    hide Step;
    FirstOfDistinct(Rows(s), i);
  }

  lemma WorkerKeepsFit(st: RowStatus, s: System, w: Worker, c: Choice, next: Pc)
    requires Fits(st, w) && AfterPc(w.pc, s, c) == Some(next)
    ensures Fits(if WritesAt(w.pc).Some? then WritesAt(w.pc).value else st, WorkerAfter(w, next, c))
  {
  }

  lemma WorkKeepsSound(s: System, i: nat, c: Choice, t: System)
    requires Sound(s) && Step(s, Work(i, c)) == Some(t)
    ensures Sound(t)
  {
    hide Step;
    WorkEffect(s, i, c, t);
    WorkKeepsShaped(s, i, c, t);
    WorkWritesOwnRow(s, i, c, t);
    WorkerKeepsFit(StatusOf(s, i), s, s.workers[i], c, AfterPc(s.workers[i].pc, s, c).value);
  }

  lemma OthersKeepSound(s: System, a: Action, t: System)
    requires Sound(s) && Step(s, a) == Some(t) && !a.Work? && !a.Join?
    ensures Sound(t)
  {
    hide Step;
    OthersLeaveRows(s, a, t);
    OthersKeepShaped(s, a, t);
  }

  lemma JoinKeepsSound(s: System, t: System)
    requires Shaped(s) && Step(s, Join) == Some(t)
    ensures Shaped(t) && Rows(t) == Rows(s) && t.workers == s.workers && t.ids == s.ids && t.job == s.job
  {
    assert Rows(t) == Rows(s);
  }

  lemma StepKeepsSound(s: System, a: Action, t: System)
    requires Sound(s) && Step(s, a) == Some(t)
    ensures Sound(t)
    ensures t.ids == s.ids && t.job == s.job && |t.workers| == |s.workers|
  {
    hide Step;
    if a.Work? {
      WorkEffect(s, a.i, a.choice, t);
      WorkKeepsSound(s, a.i, a.choice, t);
    } else if a.Join? {
      JoinKeepsSound(s, t);
    } else {
      OthersLeaveRows(s, a, t);
      OthersKeepSound(s, a, t);
    }
  }

  lemma {:induction false} RunKeepsSound(s: System, run: seq<Action>, t: System)
    requires Sound(s) && Run(Step, s, run) == Some(t)
    ensures Sound(t)
    ensures t.ids == s.ids && t.job == s.job && |t.workers| == |s.workers|
  {
    hide Step;
    if run == [] {
    } else {
      var u := Run(Step, s, run[..|run| - 1]).value;
      RunKeepsSound(s, run[..|run| - 1], u);
      StepKeepsSound(u, run[|run| - 1], t);
    }
  }

  lemma LaunchedIsSound(s: System, threshold: int, timeout: real)
    requires Launched(s, threshold, timeout) && DistinctIds(Rows(s))
    ensures Sound(s)
  {
  }

  // ---- the tally and the final status ----

  ghost function Below(n: nat): (r: set<nat>)
    ensures |r| == n
    ensures forall i: nat :: i in r <==> i < n
  {
    if n == 0 then {} else Below(n - 1) + {n - 1}
  }

  ghost function TerminalRows(rows: seq<Row>): set<nat> {
    set k: nat | k < |rows| && Terminal(rows[k].status)
  }

  lemma TallyCountsTerminalRows(rows: seq<Row>)
    ensures var t := TallyOf(rows); t.success + t.failed + t.skipped == |TerminalRows(rows)|
  {
    var a, b, c := WithStatus(rows, Success), WithStatus(rows, Failed), WithStatus(rows, Skipped);
    assert a !! b && (a + b) !! c;
    assert TerminalRows(rows) == a + b + c;
    hide TerminalRows, WithStatus;
    assert |a + b + c| == |a| + |b| + |c|;
  }

  lemma TerminalRowsAddUp(rows: seq<Row>)
    requires forall i :: 0 <= i < |rows| ==> Terminal(rows[i].status)
    ensures var t := TallyOf(rows); t.success + t.failed + t.skipped == |rows|
  {
    TallyCountsTerminalRows(rows);
    assert TerminalRows(rows) == Below(|rows|);
  }

  ghost predicate AllAre(rows: seq<Row>, st: RowStatus) {
    forall i :: 0 <= i < |rows| ==> rows[i].status == st
  }

  lemma FinalStatusDescribesRows(rows: seq<Row>)
    requires |rows| >= 1 && forall i :: 0 <= i < |rows| ==> Terminal(rows[i].status)
    ensures var final := FinalStatus(TallyOf(rows));
            && (final == JobCompleted <==> AllAre(rows, Success))
            && (final == JobFailed <==> AllAre(rows, Failed))
            && (final == JobStopped <==> AllAre(rows, Skipped))
            && (final == JobPartial <==>
                  !AllAre(rows, Success) && !AllAre(rows, Failed) && !AllAre(rows, Skipped))
  {
    assert rows[0].status == Success || rows[0].status == Failed || rows[0].status == Skipped;
    NoneAre(rows, Success);
    NoneAre(rows, Failed);
    NoneAre(rows, Skipped);
  }

  lemma NoneAre(rows: seq<Row>, st: RowStatus)
    ensures |WithStatus(rows, st)| == 0 <==> forall i :: 0 <= i < |rows| ==> rows[i].status != st
  {
    if |WithStatus(rows, st)| == 0 {
      forall i | 0 <= i < |rows| ensures rows[i].status != st {
        assert i !in WithStatus(rows, st);
      }
    } else {
      var i :| i in WithStatus(rows, st);
    }
  }

  // When the runner has counted, every row is terminal and the tally accounts for every account;
  // the status it finally writes says exactly what happened to them.
  lemma EveryRunEndsCounted(threshold: int, timeout: real, s: System, run: seq<Action>, t: System)
    requires Launched(s, threshold, timeout) && DistinctIds(Rows(s))
    requires Run(Step, s, run) == Some(t) && t.runner != Joining
    ensures |Rows(t)| == |s.ids| && forall k :: 0 <= k < |s.ids| ==> Terminal(StatusOf(t, k))
    ensures var tally := TallyOf(Rows(t)); tally.success + tally.failed + tally.skipped == |s.ids|
    ensures (t.runner.Counted? || t.runner.Cleared?) ==> t.runner.tally == TallyOf(Rows(t))
    ensures t.runner.Closed? ==>
      && (t.runner.final == JobCompleted <==> AllAre(Rows(t), Success))
      && (t.runner.final == JobFailed <==> AllAre(Rows(t), Failed))
      && (t.runner.final == JobStopped <==> AllAre(Rows(t), Skipped))
      && (t.runner.final == JobPartial <==>
            !AllAre(Rows(t), Success) && !AllAre(Rows(t), Failed) && !AllAre(Rows(t), Skipped))
  {
    hide Step;
    LaunchedIsSound(s, threshold, timeout);
    RunKeepsSound(s, run, t);
    forall k | 0 <= k < |Rows(t)| ensures Terminal(Rows(t)[k].status) {
      assert Fits(StatusOf(t, k), t.workers[k]);
    }
    TerminalRowsAddUp(Rows(t));
    FinalStatusDescribesRows(Rows(t));
  }

  // ---- the stored status ----

  function StoredStatus(s: System): Option<JobStatus> {
    if s.job in s.store.jobs then Some(s.store.jobs[s.job].status) else None
  }

  // The last status a run gives the job through `set_job_status`, if it gives one.
  function LastSet(run: seq<Action>, j: string, before: Option<JobStatus>): Option<JobStatus> {
    if run == [] then before
    else if run[|run| - 1].SetStatus? && run[|run| - 1].j == j then Some(run[|run| - 1].status)
    else LastSet(run[..|run| - 1], j, before)
  }

  lemma OnlySetStatusSets(s: System, a: Action, t: System)
    requires s.runner.Closed? && s.job in s.store.jobs && Step(s, a) == Some(t)
    ensures t.runner == s.runner && t.job == s.job && t.job in t.store.jobs
    ensures StoredStatus(t) == if a.SetStatus? && a.j == s.job then Some(a.status) else StoredStatus(s)
  {
    if a.Work? {
      WorkEffect(s, a.i, a.choice, t);
    }
  }

  ghost predicate ClosedAt(run: seq<Action>, k: nat, t: System) {
    && t.runner.Closed? && k < |run| && run[k] == Join
    && StoredStatus(t) == LastSet(run[k + 1..], t.job, Some(t.runner.final))
  }

  // A closed job was closed by some step of the run that stored the final status.  Its status is
  // that one, or the last one that a stop, pause or resume route has written since.
  lemma {:induction false} ClosedStatusIs(s: System, run: seq<Action>, t: System)
    requires !s.runner.Closed? && s.job in s.store.jobs && Run(Step, s, run) == Some(t)
    ensures t.job == s.job && t.job in t.store.jobs
    ensures t.runner.Closed? ==> exists k: nat :: ClosedAt(run, k, t)
  {
    hide Step, StoredStatus;
    if run == [] {
    } else {
      var n := |run| - 1;
      var u := Run(Step, s, run[..n]).value;
      ClosedStatusIs(s, run[..n], u);
      JobStays(u, run[n], t);
      if u.runner.Closed? {
        var k: nat :| ClosedAt(run[..n], k, u);
        OnlySetStatusSets(u, run[n], t);
        assert run[k + 1..][..n - k - 1] == run[..n][k + 1..];
        assert ClosedAt(run, k, t);
      } else if t.runner.Closed? {
        JoinCloses(u, run[n], t);
        assert ClosedAt(run, n, t);
      }
    }
  }

  lemma JobStays(s: System, a: Action, t: System)
    requires s.job in s.store.jobs && Step(s, a) == Some(t)
    ensures t.job == s.job && t.job in t.store.jobs
  {
    if a.Work? {
      WorkEffect(s, a.i, a.choice, t);
    }
  }

  lemma JoinCloses(s: System, a: Action, t: System)
    requires s.job in s.store.jobs && Step(s, a) == Some(t) && !s.runner.Closed? && t.runner.Closed?
    ensures a == Join && StoredStatus(t) == Some(t.runner.final)
  {
    if a.Work? {
      WorkEffect(s, a.i, a.choice, t);
    } else if !a.Join? {
      OthersLeaveRows(s, a, t);
    }
  }

  lemma {:induction false} NobodySets(run: seq<Action>, j: string, before: Option<JobStatus>)
    requires forall k :: 0 <= k < |run| ==> !(run[k].SetStatus? && run[k].j == j)
    ensures LastSet(run, j, before) == before
  {
    if run == [] {
    } else {
      NobodySets(run[..|run| - 1], j, before);
    }
  }

  // So from any moment before the closing on, the final status is the stored one if no route
  // writes another.
  lemma UndisturbedStatusIsFinal(s: System, run: seq<Action>, t: System)
    requires !s.runner.Closed? && s.job in s.store.jobs && Run(Step, s, run) == Some(t) && t.runner.Closed?
    requires forall k :: 0 <= k < |run| ==> !(run[k].SetStatus? && run[k].j == s.job)
    ensures StoredStatus(t) == Some(t.runner.final)
  {
    ClosedStatusIs(s, run, t);
    var k: nat :| ClosedAt(run, k, t);
    NobodySets(run[k + 1..], s.job, Some(t.runner.final));
  }

  // The pause route looks at the status, pauses and writes "paused" in separate steps.  When the job
  // closes before the last of them, it stays "paused" whatever its rows say.
  lemma LatePauseSticks(s: System) returns (run: seq<Action>, t: System)
    requires Shaped(s) && s.runner.Cleared? && s.store.jobs[s.job].status == JobRunning
    ensures Run(Step, s, run) == Some(t) && t.runner.Closed? && Rows(t) == Rows(s)
    ensures StoredStatus(t) == Some(JobPaused) && t.runner.final != JobPaused
  {
    var a := s.(store := s.store.RequestPause(s.job));
    var final := FinalStatus(s.runner.tally);
    var b := a.(store := a.store.SetJobStatus(s.job, final), runner := Closed(final));
    t := b.(store := b.store.SetJobStatus(s.job, JobPaused));
    run := [Pause(s.job), Join, SetStatus(s.job, JobPaused)];
    RunThree(Step, s, Pause(s.job), a, Join, b, SetStatus(s.job, JobPaused), t);
  }

  // ---- the books of the shared breaker ----

  function RecordsOf(log: seq<Entry>): seq<SyncBreaker.Record> {
    seq(|log|, i requires 0 <= i < |log| => log[i].record)
  }

  // Entry `p` is worker `i`'s.
  predicate Owns(log: seq<Entry>, p: nat, i: nat) {
    p < |log| && log[p].owner == Some(i)
  }

  // Every entry of a worker of this job is what that worker recorded; no worker has two; every
  // worker that has recorded has one.
  ghost predicate Booked(workers: seq<Worker>, log: seq<Entry>) {
    && (forall p: nat, i: nat :: Owns(log, p, i) ==> i < |workers| && workers[i].record == Some(log[p].record))
    && (forall p: nat, q: nat, i: nat :: Owns(log, p, i) && Owns(log, q, i) ==> p == q)
    && (forall i: nat :: i < |workers| && workers[i].record.Some? ==> HasEntry(log, i))
  }

  ghost predicate HasEntry(log: seq<Entry>, i: nat) {
    exists p: nat :: Owns(log, p, i)
  }

  // A worker that records for the first time, and the log entry it makes.
  lemma EntryKeepsBooks(workers: seq<Worker>, i: nat, v: Worker, log: seq<Entry>, r: SyncBreaker.Record)
    requires Booked(workers, log)
    requires i < |workers| && workers[i].record == None && v.record == Some(r)
    ensures Booked(workers[i := v], log + [Entry(Some(i), r)])
  {
    var after := log + [Entry(Some(i), r)];
    assert forall p: nat, k: nat :: Owns(after, p, k) <==> Owns(log, p, k) || (p == |log| && k == i);
    forall k: nat | k < |workers| && workers[i := v][k].record.Some? ensures HasEntry(after, k) {
      if k == i {
        assert Owns(after, |log|, i);
      } else {
        var p: nat :| Owns(log, p, k);
        assert Owns(after, p, k);
      }
    }
  }

  lemma SameRecordsSameBooks(workers: seq<Worker>, others: seq<Worker>, log: seq<Entry>)
    requires Booked(workers, log) && |workers| == |others|
    requires forall i :: 0 <= i < |workers| ==> workers[i].record == others[i].record
    ensures Booked(others, log)
  {
  }

  lemma OthersEntryKeepsBooks(workers: seq<Worker>, log: seq<Entry>, r: SyncBreaker.Record)
    requires Booked(workers, log)
    ensures Booked(workers, log + [Entry(None, r)])
  {
    var after := log + [Entry(None, r)];
    assert forall p: nat, k: nat :: Owns(after, p, k) <==> Owns(log, p, k);
    forall k: nat | HasEntry(log, k) ensures HasEntry(after, k) {
      var p: nat :| Owns(log, p, k);
      assert Owns(after, p, k);
    }
  }

  // What a step adds to the log.
  function EntryOf(s: System, a: Action): Option<Entry> {
    match a
    case Work(i, c) =>
      var record := if i < |s.workers| then RecordsAt(s.workers[i].pc, c.now) else None;
      if record.Some? then Some(Entry(Some(i), record.value)) else None
    case OtherRecord(r) => Some(Entry(None, r))
    case _ => None
  }

  ghost predicate Logged(s: System, t: System, entry: Option<Entry>) {
    match entry
    case None => t.log == s.log && t.breaker == s.breaker
    case Some(e) => t.log == s.log + [e] && t.breaker == s.breaker.Recorded(e.record)
  }

  lemma OthersLog(s: System, a: Action, t: System)
    requires Step(s, a) == Some(t) && !a.Work?
    ensures Logged(s, t, EntryOf(s, a))
    ensures a.OtherRecord? || a.Join? ==> t.workers == s.workers
  {
  }

  // A worker about to record has not recorded yet.
  ghost predicate RecordsOnce(workers: seq<Worker>) {
    forall i :: 0 <= i < |workers| && RecordsAt(workers[i].pc, 0.0).Some? ==> workers[i].record == None
  }

  lemma SoundRecordsOnce(s: System)
    requires Sound(s)
    ensures RecordsOnce(s.workers)
  {
    forall i | 0 <= i < |s.workers| && RecordsAt(s.workers[i].pc, 0.0).Some? ensures s.workers[i].record == None {
      assert Fits(StatusOf(s, i), s.workers[i]);
    }
  }

  lemma WorkLogs(s: System, i: nat, c: Choice, t: System) returns (v: Worker)
    requires Step(s, Work(i, c)) == Some(t)
    ensures i < |s.workers| && Logged(s, t, EntryOf(s, Work(i, c))) && t.workers == s.workers[i := v]
    ensures v.record == match EntryOf(s, Work(i, c)) case None => s.workers[i].record case Some(e) => Some(e.record)
  {
    WorkEffect(s, i, c, t);
    hide Step, AfterPc;
    v := t.workers[i];
  }

  lemma StepKeepsBooks(s: System, a: Action, t: System)
    requires RecordsOnce(s.workers) && Booked(s.workers, s.log) && Step(s, a) == Some(t)
    ensures Booked(t.workers, t.log) && Logged(s, t, EntryOf(s, a))
  {
    if a.Work? {
      var v := WorkLogs(s, a.i, a.choice, t);
      hide Step, Booked;
      match EntryOf(s, a)
      case None => SameRecordsSameBooks(s.workers, t.workers, s.log);
      case Some(e) => EntryKeepsBooks(s.workers, a.i, v, s.log, e.record);
    } else {
      OthersLog(s, a, t);
      if a.OtherRecord? {
        OthersEntryKeepsBooks(s.workers, s.log, a.record);
      } else if !a.Join? {
        OthersLeaveRows(s, a, t);
        SameRecordsSameBooks(s.workers, t.workers, s.log);
      }
      hide Step, RecordsOnce, Booked;
    }
  }

  lemma RecordsGrow(log: seq<Entry>, e: Entry)
    ensures RecordsOf(log + [e]) == RecordsOf(log) + [e.record]
    ensures RecordsOf(log + [e])[..|log|] == RecordsOf(log)
  {
  }

  // The shared breaker is the replay of everything recorded, in the order it was recorded.
  lemma {:induction false} BreakerReplaysLog(s: System, run: seq<Action>, t: System)
    requires Sound(s) && Booked(s.workers, s.log) && s.log == [] && Run(Step, s, run) == Some(t)
    ensures Booked(t.workers, t.log) && t.breaker == SyncBreaker.Replay(s.breaker, RecordsOf(t.log))
  {
    if run == [] {
    } else {
      hide Step, Sound, Booked, EntryOf;
      var u := Run(Step, s, run[..|run| - 1]).value;
      BreakerReplaysLog(s, run[..|run| - 1], u);
      RunKeepsSound(s, run[..|run| - 1], u);
      SoundRecordsOnce(u);
      StepKeepsBooks(u, run[|run| - 1], t);
      var entry := EntryOf(u, run[|run| - 1]);
      if entry.Some? {
        RecordsGrow(u.log, entry.value);
      }
    }
  }

  ghost predicate EverUploading(s: System, run: seq<Action>, k: nat)
    requires Run(Step, s, run).Some?
  {
    exists p: nat :: p <= |run| && k < |Rows(At(Step, s, run, p))| && StatusOf(At(Step, s, run, p), k) == Uploading
  }

  // A worker's place tells whether it ever wrote `uploading`.
  predicate PastUploading(w: Worker) {
    w.dispatched || w.pc == Dispatch
  }

  lemma EverUploadingSoFar(s: System, run: seq<Action>, n: nat, k: nat)
    requires |run| == n + 1 && Run(Step, s, run).Some? && Run(Step, s, run[..n]).Some?
    ensures EverUploading(s, run, k)
       <==> (EverUploading(s, run[..n], k)
             || var t := Run(Step, s, run).value; k < |Rows(t)| && StatusOf(t, k) == Uploading)
  {
    hide Step, Rows, StatusOf;
    var before := run[..n];
    forall p: nat | p <= n ensures At(Step, s, run, p) == At(Step, s, before, p) {
      assert before[..p] == run[..p];
    }
    assert run[..n + 1] == run;
    assert At(Step, s, run, n + 1) == Run(Step, s, run).value;
  }

  // A row that does not start `uploading` is so at some moment exactly if its worker got there.
  lemma {:induction false} UploadingIsRemembered(s: System, run: seq<Action>, t: System, k: nat)
    requires Sound(s) && Run(Step, s, run) == Some(t) && k < |s.ids|
    requires !PastUploading(s.workers[k]) && StatusOf(s, k) != Uploading
    ensures k < |t.workers| && k < |Rows(t)|
    ensures EverUploading(s, run, k) <==> PastUploading(t.workers[k])
    ensures StatusOf(t, k) == Uploading ==> PastUploading(t.workers[k])
  {
    hide Step, RunnerFits, WaitsSoundly;
    RunKeepsSound(s, run, t);
    if run == [] {
      assert At(Step, s, run, 0) == s;
    } else {
      var n := |run| - 1;
      var u := Run(Step, s, run[..n]).value;
      UploadingIsRemembered(s, run[..n], u, k);
      RunKeepsSound(s, run[..n], u);
      hide Fits;
      EverUploadingSoFar(s, run, n, k);
      hide EverUploading;
      WorkerMovesOn(u, run[n], t, k);
    }
  }

  lemma WorkerMovesOn(s: System, a: Action, t: System, k: nat)
    requires Sound(s) && Step(s, a) == Some(t) && k < |s.workers|
    ensures k < |t.workers| && k < |Rows(t)|
    ensures PastUploading(s.workers[k]) ==> PastUploading(t.workers[k])
    ensures PastUploading(t.workers[k]) ==> PastUploading(s.workers[k]) || StatusOf(t, k) == Uploading
    ensures StatusOf(t, k) == Uploading ==> PastUploading(t.workers[k]) || StatusOf(s, k) == Uploading
  {
    StepKeepsSound(s, a, t);
    assert Fits(StatusOf(s, k), s.workers[k]) && Fits(StatusOf(t, k), t.workers[k]);
    hide Shaped;
    if a.Work? {
      WorkEffect(s, a.i, a.choice, t);
      WorkWritesOwnRow(s, a.i, a.choice, t);
      hide Step;
    } else if a.Join? {
      JoinKeepsSound(s, t);
      hide Step;
    } else {
      OthersLeaveRows(s, a, t);
      hide Step;
    }
  }

  lemma NothingIsRecordedYet(s: System, threshold: int, timeout: real)
    requires Launched(s, threshold, timeout)
    ensures s.log == [] && Booked(s.workers, s.log)
    ensures forall k :: 0 <= k < |s.workers| ==> !PastUploading(s.workers[k])
  {
  }

  ghost predicate Accounted(t: System, k: nat)
    requires k < |t.workers| && k < |Rows(t)|
  {
    && (HasEntry(t.log, k) <==> t.workers[k].dispatched)
    && (forall p: nat, q: nat :: Owns(t.log, p, k) && Owns(t.log, q, k) ==> p == q)
    && (StatusOf(t, k) == Skipped ==> !HasEntry(t.log, k))
    && (StatusOf(t, k) == Success ==> HasEntry(t.log, k))
    && (forall p: nat :: Owns(t.log, p, k) ==>
          (t.log[p].record == SyncBreaker.Success <==> StatusOf(t, k) == Success))
  }

  // Once all workers have finished, a row has a breaker record exactly if its upload was started --
  // unless it started `uploading`, exactly if it was `uploading` at some moment of the run.  No row
  // has two, a skipped row has none, and the record is a success exactly if the row is.
  lemma RowBooks(threshold: int, timeout: real, s: System, run: seq<Action>, t: System, k: nat)
    requires Launched(s, threshold, timeout) && DistinctIds(Rows(s)) && k < |s.ids|
    requires Run(Step, s, run) == Some(t) && AllFinished(t)
    ensures k < |t.workers| && k < |Rows(t)| && k < |Rows(s)|
    ensures Accounted(t, k)
    ensures StatusOf(s, k) != Uploading ==> (HasEntry(t.log, k) <==> EverUploading(s, run, k))
  {
    LaunchedIsSound(s, threshold, timeout);
    NothingIsRecordedYet(s, threshold, timeout);
    hide Launched, Step, RunnerFits, WaitsSoundly, RecordsOf, EverUploading;
    RunKeepsSound(s, run, t);
    BreakerReplaysLog(s, run, t);
    if StatusOf(s, k) != Uploading {
      UploadingIsRemembered(s, run, t, k);
    }
    assert Fits(StatusOf(t, k), t.workers[k]);
    hide Run;
    assert HasEntry(t.log, k) ==> t.workers[k].record.Some?;
  }

  // All records of the job belong to its rows, and in numbers: as many as uploads were started, and
  // as many successes as `success` rows.
  lemma BooksBalance(threshold: int, timeout: real, s: System, run: seq<Action>, t: System)
    requires Launched(s, threshold, timeout) && DistinctIds(Rows(s))
    requires Run(Step, s, run) == Some(t) && AllFinished(t)
    ensures |t.workers| == |s.ids| == |Rows(t)|
    ensures t.breaker == SyncBreaker.Replay(s.breaker, RecordsOf(t.log))
    ensures forall p: nat, k: nat :: Owns(t.log, p, k) ==> k < |s.ids|
    ensures |Entries(t.log, false)| == |(set k: nat | k < |t.workers| && t.workers[k].dispatched)|
    ensures |Entries(t.log, true)| == TallyOf(Rows(t)).success
  {
    LaunchedIsSound(s, threshold, timeout);
    NothingIsRecordedYet(s, threshold, timeout);
    hide Launched, Step, RunnerFits, WaitsSoundly, RecordsOf, Fits;
    RunKeepsSound(s, run, t);
    BreakerReplaysLog(s, run, t);
    forall k: nat | k < |s.ids| ensures Accounted(t, k) {
      RowBooks(threshold, timeout, s, run, t, k);
    }
    hide Run, Accounted;
    EntriesCount(t);
  }

  lemma EntriesCount(t: System)
    requires |t.workers| == |Rows(t)| && Booked(t.workers, t.log)
    requires forall k: nat :: k < |Rows(t)| ==> Accounted(t, k)
    ensures |Entries(t.log, false)| == |(set k: nat | k < |t.workers| && t.workers[k].dispatched)|
    ensures |Entries(t.log, true)| == TallyOf(Rows(t)).success
  {
    var uploads := set k: nat | k < |t.workers| && t.workers[k].dispatched;
    forall p: nat | p in Entries(t.log, false)
      ensures t.log[p].owner.value in uploads
      ensures p in Entries(t.log, true) <==> t.log[p].owner.value in WithStatus(Rows(t), Success)
    {
      var k := t.log[p].owner.value;
      assert Owns(t.log, p, k);
      assert Accounted(t, k);
    }
    forall k: nat | k in uploads ensures exists p: nat :: p in Entries(t.log, false) && Owns(t.log, p, k) {
      assert Accounted(t, k);
      var p: nat :| Owns(t.log, p, k);
      assert p in Entries(t.log, false);
    }
    forall k: nat | k in WithStatus(Rows(t), Success)
      ensures exists p: nat :: p in Entries(t.log, true) && Owns(t.log, p, k)
    {
      assert Accounted(t, k);
      var p: nat :| Owns(t.log, p, k);
      assert p in Entries(t.log, true);
    }
    forall p, q | p in Entries(t.log, false) && q in Entries(t.log, false) && t.log[p].owner == t.log[q].owner
      ensures p == q
    {
      assert Owns(t.log, p, t.log[p].owner.value) && Owns(t.log, q, t.log[p].owner.value);
    }
    hide Accounted, Booked, StatusOf, HasEntry;
    assert Entries(t.log, true) <= Entries(t.log, false);
    OwnersCount(t.log, Entries(t.log, false), uploads);
    OwnersCount(t.log, Entries(t.log, true), WithStatus(Rows(t), Success));
  }

  // The entries of this job, or its successes alone.
  ghost function Entries(log: seq<Entry>, successes: bool): set<nat> {
    set p: nat | p < |log| && log[p].owner.Some? && (successes ==> log[p].record == SyncBreaker.Success)
  }

  lemma {:induction false} OwnersCount(log: seq<Entry>, entries: set<nat>, owners: set<nat>)
    requires forall p :: p in entries ==> p < |log| && log[p].owner.Some? && log[p].owner.value in owners
    requires forall p, q :: p in entries && q in entries && log[p].owner == log[q].owner ==> p == q
    requires forall k :: k in owners ==> exists p: nat :: p in entries && Owns(log, p, k)
    ensures |entries| == |owners|
    decreases entries
  {
    if entries == {} {
      assert owners == {};
    } else {
      var p :| p in entries;
      var k := log[p].owner.value;
      forall j | j in owners - {k} ensures exists q: nat :: q in entries - {p} && Owns(log, q, j) {
        var q: nat :| q in entries && Owns(log, q, j);
        assert q in entries - {p};
      }
      OwnersCount(log, entries - {p}, owners - {k});
    }
  }
}
