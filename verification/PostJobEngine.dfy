// The concurrent part of backend/instagram_runtime/post_job_executor.py: one worker per account
// (`_upload_one`), the thread that joins them (`run`), operators, and the rest of the process.
//
// A step is one critical section, one event operation or one breaker call; any order of steps
// of different threads is a run.  What a retry does to a job that is still running is added in
// PostJobRetry; runs of `Step` are those without it.
module PostJobEngine {
  import opened Options
  import opened JobStore
  import SyncBreaker

  // Where a worker stands.  The names say what it does next.
  datatype Pc =
    | FirstCheck                        // is_stop_requested, before any waiting
    | WriteSkipped
    | ReadEvent                         // wait_if_paused: read the event under the lock
    | TestEvent(evt: nat)               // wait_if_paused: is the event set?
    | EnterWait(evt: nat)               // evt.wait(), which looks at the flag once more
    | Blocked(evt: nat)                 // asleep in evt.wait()
    | SecondCheck                       // is_stop_requested, after the wait
    | AskBreaker
    | WriteCircuitOpen
    | LookUpClient
    | WriteNotLoggedIn
    | WriteUploading
    | Dispatch                          // submit the upload
    | AwaitUpload
    | WriteTimedOut
    | WriteFailed(retryable: bool)
    | WriteSuccess
    | RecordFailure(retryable: bool)
    | RecordSuccess
    | Finished

  datatype Upload = Uploaded | TimedOut | Errored(retryable: bool)

  // What the world decides while a worker takes a step: the clock, whether the account has a
  // client, how the upload ends.
  datatype Choice = Choice(now: real, hasClient: bool, upload: Upload)

  // `dispatched` and `record` remember what the worker did to the outside world.
  datatype Worker = Worker(pc: Pc, dispatched: bool, record: Option<SyncBreaker.Record>)

  // The thread in `run`, from the moment all workers are submitted.
  datatype Runner = Joining | Counted(tally: Tally) | Cleared(tally: Tally) | Closed(final: JobStatus)

  // A breaker record and the worker of this job that made it; `None` for another job's.
  datatype Entry = Entry(owner: Option<nat>, record: SyncBreaker.Record)

  // `releases` are the events some thread has read under the lock and is yet to set.
  datatype System = System(
    job: string, ids: seq<string>, store: Store, workers: seq<Worker>, runner: Runner,
    releases: multiset<nat>, breaker: SyncBreaker.Breaker, log: seq<Entry>)

  datatype Action =
    | Work(i: nat, choice: Choice)
    | Join                                        // the runner's next step
    | FlagStop(j: string)                         // request_stop, under the lock
    | ReadForResume(j: string)                    // request_resume, under the lock
    | Release(evt: nat)                           // the evt.set() of either
    | Pause(j: string)
    | SetStatus(j: string, status: JobStatus)     // the stop, pause and resume routes
    | OtherUpdate(j: string, id: string, row: RowStatus)  // workers and runners of other jobs
    | OtherClear(j: string)
    | OtherRecord(record: SyncBreaker.Record)

  // ---- worker steps ----

  function AfterPc(pc: Pc, s: System, c: Choice): Option<Pc> {
    match pc
    case FirstCheck => Some(if s.store.StopRequested(s.job) then WriteSkipped else ReadEvent)
    case WriteSkipped => Some(Finished)
    case ReadEvent => Some(match s.store.PauseEvent(s.job) case None => SecondCheck case Some(e) => TestEvent(e))
    case TestEvent(e) =>
      if e >= |s.store.events| then None
      else Some(if s.store.events[e] then SecondCheck else EnterWait(e))
    case EnterWait(e) =>
      if e >= |s.store.events| then None
      else Some(if s.store.events[e] then SecondCheck else Blocked(e))
    case Blocked(_) => None
    case SecondCheck => Some(if s.store.StopRequested(s.job) then WriteSkipped else AskBreaker)
    case AskBreaker => Some(if s.breaker.Allows(c.now) then LookUpClient else WriteCircuitOpen)
    case WriteCircuitOpen => Some(Finished)
    case LookUpClient => Some(if c.hasClient then WriteUploading else WriteNotLoggedIn)
    case WriteNotLoggedIn => Some(Finished)
    case WriteUploading => Some(Dispatch)
    case Dispatch => Some(AwaitUpload)
    case AwaitUpload => Some(
      match c.upload
      case Uploaded => WriteSuccess
      case TimedOut => WriteTimedOut
      case Errored(retryable) => WriteFailed(retryable))
    case WriteTimedOut => Some(RecordFailure(true))
    case WriteFailed(retryable) => Some(RecordFailure(retryable))
    case WriteSuccess => Some(RecordSuccess)
    case RecordFailure(_) => Some(Finished)
    case RecordSuccess => Some(Finished)
    case Finished => None
  }

  // The status a worker writes to its account's row at this point, if it writes one.
  function WritesAt(pc: Pc): Option<RowStatus> {
    match pc
    case WriteSkipped => Some(Skipped)
    case WriteCircuitOpen => Some(Failed)
    case WriteNotLoggedIn => Some(Failed)
    case WriteUploading => Some(Uploading)
    case WriteTimedOut => Some(Failed)
    case WriteFailed(_) => Some(Failed)
    case WriteSuccess => Some(Success)
    case _ => None
  }

  const CIRCUIT_OPEN_MESSAGE := "Instagram API circuit open — too many recent failures, will retry later"
  const CIRCUIT_OPEN_CODE := "circuit_open"
  const NOT_LOGGED_IN_MESSAGE := "Account not logged in"
  const UPLOAD_TIMEOUT_CODE := "upload_timeout"

  // The message and code that go with it, where they do not depend on the exception.
  function MessageAt(pc: Pc): Option<string> {
    match pc
    case WriteCircuitOpen => Some(CIRCUIT_OPEN_MESSAGE)
    case WriteNotLoggedIn => Some(NOT_LOGGED_IN_MESSAGE)
    case _ => None
  }

  function CodeAt(pc: Pc): Option<string> {
    match pc
    case WriteCircuitOpen => Some(CIRCUIT_OPEN_CODE)
    case WriteTimedOut => Some(UPLOAD_TIMEOUT_CODE)
    case _ => None
  }

  function RecordsAt(pc: Pc, now: real): Option<SyncBreaker.Record> {
    match pc
    case RecordFailure(retryable) => Some(SyncBreaker.Failure(retryable, now))
    case RecordSuccess => Some(SyncBreaker.Success)
    case _ => None
  }

  function StoreAfter(s: System, i: nat): Store
    requires i < |s.workers| && i < |s.ids|
  {
    var pc := s.workers[i].pc;
    match WritesAt(pc)
    case None => s.store
    case Some(st) => s.store.UpdateResult(s.job, s.ids[i], st, MessageAt(pc), CodeAt(pc))
  }

  function WorkerAfter(w: Worker, next: Pc, c: Choice): Worker {
    var record := RecordsAt(w.pc, c.now);
    Worker(next, w.dispatched || w.pc == Dispatch, if record.Some? then record else w.record)
  }

  function WorkerStep(s: System, i: nat, c: Choice): Option<System> {
    if i >= |s.workers| || i >= |s.ids| then None
    else
      var w := s.workers[i];
      match AfterPc(w.pc, s, c)
      case None => None
      case Some(next) =>
        var t := s.(store := StoreAfter(s, i), workers := s.workers[i := WorkerAfter(w, next, c)]);
        match RecordsAt(w.pc, c.now)
        case None => Some(t)
        case Some(r) => Some(t.(breaker := s.breaker.Recorded(r), log := s.log + [Entry(Some(i), r)]))
  }

  // ---- the runner ----

  function FinalStatus(t: Tally): JobStatus {
    if t.skipped > 0 && t.success == 0 && t.failed == 0 then JobStopped
    else if t.skipped > 0 then JobPartial
    else if t.failed == 0 then JobCompleted
    else if t.success == 0 then JobFailed
    else JobPartial
  }

  predicate AllFinished(s: System) {
    forall i :: 0 <= i < |s.workers| ==> s.workers[i].pc == Finished
  }

  function Rows(s: System): seq<Row> {
    if s.job in s.store.jobs then s.store.jobs[s.job].rows else []
  }

  ghost function RunnerStep(s: System): Option<System> {
    match s.runner
    case Joining => if AllFinished(s) then Some(s.(runner := Counted(TallyOf(Rows(s))))) else None
    case Counted(tally) => Some(s.(store := s.store.ClearControl(s.job), runner := Cleared(tally)))
    case Cleared(tally) =>
      Some(s.(store := s.store.SetJobStatus(s.job, FinalStatus(tally)), runner := Closed(FinalStatus(tally))))
    case Closed(_) => None
  }

  // ---- everybody else ----

  // `Event.set` wakes every thread asleep on the event; each returns from `wait` whatever
  // happens to the flag afterwards.
  function Woken(workers: seq<Worker>, e: nat): (r: seq<Worker>)
    ensures |r| == |workers|
    ensures forall i :: 0 <= i < |r| ==>
      r[i] == if workers[i].pc == Blocked(e) then workers[i].(pc := SecondCheck) else workers[i]
  {
    seq(|workers|, i requires 0 <= i < |workers| =>
      if workers[i].pc == Blocked(e) then workers[i].(pc := SecondCheck) else workers[i])
  }

  function ReadForRelease(s: System, j: string): multiset<nat> {
    match s.store.PauseEvent(j)
    case None => s.releases
    case Some(e) => s.releases + multiset{e}
  }

  ghost function Step(s: System, a: Action): Option<System> {
    match a
    case Work(i, c) => WorkerStep(s, i, c)
    case Join => RunnerStep(s)
    case FlagStop(j) => Some(s.(store := s.store.RequestStop(j), releases := ReadForRelease(s, j)))
    case ReadForResume(j) => Some(s.(releases := ReadForRelease(s, j)))
    case Release(e) =>
      if e !in s.releases || e >= |s.store.events| then None
      else Some(s.(store := s.store.SetEvent(e), workers := Woken(s.workers, e), releases := s.releases - multiset{e}))
    case Pause(j) =>
      if j in s.store.pauseEvents && s.store.pauseEvents[j] >= |s.store.events| then None
      else Some(s.(store := s.store.RequestPause(j)))
    case SetStatus(j, st) => Some(s.(store := s.store.SetJobStatus(j, st)))
    case OtherUpdate(j, id, st) =>
      if j == s.job then None else Some(s.(store := s.store.UpdateResult(j, id, st, None, None)))
    case OtherClear(j) => if j == s.job then None else Some(s.(store := s.store.ClearControl(j)))
    case OtherRecord(r) => Some(s.(breaker := s.breaker.Recorded(r), log := s.log + [Entry(None, r)]))
  }

  // ---- where a run starts ----

  // All workers submitted, none scheduled yet.  Rows can hold anything: a retried job starts with
  // the successes it had.  Stop flags and pause events may be left over from before, and the
  // breaker has whatever history it has.
  ghost predicate Launched(s: System, threshold: int, timeout: real) {
    && s.store.Valid()
    && s.job in s.store.jobs
    && |Rows(s)| == |s.ids| == |s.workers| >= 1
    && (forall i :: 0 <= i < |s.ids| ==> Rows(s)[i].accountId == s.ids[i])
    && (forall i :: 0 <= i < |s.workers| ==> s.workers[i] == Worker(FirstCheck, false, None))
    && s.runner == Joining
    && (forall e :: e in s.releases ==> e < |s.store.events|)
    && s.log == []
    && s.breaker.threshold == threshold && s.breaker.timeout == timeout
  }
}
