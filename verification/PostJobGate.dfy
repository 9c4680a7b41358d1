// The two gates in front of a post job: `PostJobExecutor.run` refuses jobs that cannot run
// (backend/instagram_runtime/post_job_executor.py), and the startup restore decides which persisted
// jobs to enqueue at all (backend/app/main.py).
//
// `parses` stands for `datetime.fromisoformat` accepting a string.
module PostJobGate {
  import opened Options
  import opened JobStore

  const MEDIA_REQUIRED_MESSAGE := "Attach at least one media file before this post can run."
  const MEDIA_REQUIRED_CODE := "media_required"
  const INVALID_SCHEDULE_MESSAGE := "Scheduled time is invalid. Update it and retry."
  const INVALID_SCHEDULE_CODE := "invalid_schedule"

  // ---- has_runnable_media_paths, is_valid_scheduled_at ----

  // The characters str.strip removes.
  predicate IsSpace(c: char) {
    || '\t' <= c <= '\r' || '\U{1c}' <= c <= ' ' || c == '\U{85}' || c == '\U{a0}' || c == '\U{1680}'
    || '\U{2000}' <= c <= '\U{200a}' || c == '\U{2028}' || c == '\U{2029}' || c == '\U{202f}'
    || c == '\U{205f}' || c == '\U{3000}'
  }

  predicate Blank(s: string) {
    forall c :: c in s ==> IsSpace(c)
  }

  predicate HasRunnableMedia(paths: Option<seq<string>>) {
    paths.Some? && exists p :: p in paths.value && !Blank(p)
  }

  predicate ValidSchedule(at: Option<string>, parses: string -> bool) {
    at.Some? && !Blank(at.value) && parses(at.value)
  }

  // ---- the executor's gate ----

  datatype Decision = ConsumeStop | Ignore | NeedsMedia | InvalidSchedule | Runnable

  // `job.get("_scheduled_at") or job.get("scheduled_at")`: an empty string is passed over.
  function ExecutorSchedule(job: Job): Option<string> {
    if job.schedule.Some? && job.schedule.value != "" then job.schedule else job.publicSchedule
  }

  function ExecutorGate(job: Job, parses: string -> bool): Decision {
    if job.status == JobStopped then ConsumeStop
    else if job.status != JobPending && job.status != JobScheduled then Ignore
    else if !HasRunnableMedia(job.media) then NeedsMedia
    else if job.status == JobScheduled && !ValidSchedule(ExecutorSchedule(job), parses) then InvalidSchedule
    else Runnable
  }

  predicate Spared(row: Row) {
    row.accountId == "" || row.status == Success
  }

  // One turn of the loop in `_set_job_non_runnable`: it walks the live rows but writes by account,
  // so a later row is read after the earlier ones were written.
  function RefuseRow(rows: seq<Row>, k: nat, st: RowStatus, message: string, code: string): (r: seq<Row>)
    requires k < |rows|
    ensures |r| == |rows|
  {
    if Spared(rows[k]) then rows else WriteRow(rows, rows[k].accountId, st, Some(message), Some(code))
  }

  function Refused(rows: seq<Row>, k: nat, st: RowStatus, message: string, code: string): (r: seq<Row>)
    requires k <= |rows|
    ensures |r| == |rows|
  {
    if k == 0 then rows else RefuseRow(Refused(rows, k - 1, st, message, code), k - 1, st, message, code)
  }

  function WithRows(s: Store, j: string, rows: seq<Row>): Store
    requires j in s.jobs
  {
    s.(jobs := s.jobs[j := s.jobs[j].(rows := rows)])
  }

  lemma WithRowsTwice(s: Store, j: string, rows: seq<Row>, others: seq<Row>)
    requires j in s.jobs
    ensures WithRows(WithRows(s, j, rows), j, others) == WithRows(s, j, others)
    ensures WithRows(s, j, s.jobs[j].rows) == s
  {
    assert s.jobs[j := s.jobs[j].(rows := s.jobs[j].rows)] == s.jobs;
  }

  function RefuseJob(job: Job, status: JobStatus, st: RowStatus, message: string, code: string): Job {
    job.(status := status, rows := Refused(job.rows, |job.rows|, st, message, code))
  }

  // The job as `run` leaves it when it does not launch any workers.
  function AfterGate(job: Job, parses: string -> bool): Job {
    match ExecutorGate(job, parses)
    case ConsumeStop => job
    case Ignore => job
    case NeedsMedia => RefuseJob(job, JobNeedsMedia, Pending, MEDIA_REQUIRED_MESSAGE, MEDIA_REQUIRED_CODE)
    case InvalidSchedule => RefuseJob(job, JobFailed, Failed, INVALID_SCHEDULE_MESSAGE, INVALID_SCHEDULE_CODE)
    case Runnable => job.(status := if job.rows == [] then JobCompleted else JobRunning)
  }

  // ---- the restore's gate ----

  datatype Restored = NotEligible | Blocked(job: Job) | Enqueued(at: Option<string>)

  function RestoreMedia(job: Job): Option<seq<string>> {
    if job.publicMedia.Some? then job.publicMedia else job.media
  }

  function RestoreSchedule(job: Job): Option<string> {
    if job.publicSchedule.Some? then job.publicSchedule else job.schedule
  }

  function Annotated(rows: seq<Row>, st: RowStatus, message: string, code: string): seq<Row> {
    seq(|rows|, i requires 0 <= i < |rows| => rows[i].(status := st, error := Some(message), errorCode := Some(code)))
  }

  function Restore(job: Job, parses: string -> bool): Restored {
    if job.status != JobPending && job.status != JobScheduled then NotEligible
    else if !HasRunnableMedia(RestoreMedia(job)) then
      Blocked(job.(status := JobNeedsMedia,
                   rows := Annotated(job.rows, Pending, MEDIA_REQUIRED_MESSAGE, MEDIA_REQUIRED_CODE)))
    else if job.status == JobScheduled && !ValidSchedule(RestoreSchedule(job), parses) then
      Blocked(job.(status := JobFailed,
                   rows := Annotated(job.rows, Failed, INVALID_SCHEDULE_MESSAGE, INVALID_SCHEDULE_CODE)))
    else Enqueued(if job.status == JobScheduled then RestoreSchedule(job) else None)
  }

  // Restored, and run if the restore enqueued it.
  function RestoredThenRun(job: Job, parses: string -> bool): Job {
    match Restore(job, parses)
    case NotEligible => job
    case Blocked(blocked) => blocked
    case Enqueued(_) => AfterGate(job, parses)
  }

  function DecisionOf(job: Job, parses: string -> bool): Decision {
    match Restore(job, parses)
    case NotEligible => if job.status == JobStopped then ConsumeStop else Ignore
    case Blocked(blocked) => if blocked.status == JobNeedsMedia then NeedsMedia else InvalidSchedule
    case Enqueued(_) => ExecutorGate(job, parses)
  }

  // ---- agreement ----

  // The two gates look up the media and the schedule under two spellings each, in opposite orders.
  predicate OneSpelling(job: Job) {
    job.publicMedia == None && job.publicSchedule == None
  }

  // In terms of the four fields: public media that cannot run do not stand in front of media that
  // can, and for a scheduled job an invalid public schedule not in front of a valid one; nor is the
  // schedule to blame when the executor would find the media wanting.
  predicate FieldsAgree(job: Job, parses: string -> bool) {
    var public, private := HasRunnableMedia(job.publicMedia), HasRunnableMedia(job.media);
    && (job.publicMedia.Some? && private ==> public)
    && (job.status == JobScheduled && job.publicSchedule.Some? && private && ValidSchedule(job.schedule, parses) ==>
          ValidSchedule(job.publicSchedule, parses))
    && (job.status == JobScheduled && public && !private ==>
          ValidSchedule(if job.publicSchedule.Some? then job.publicSchedule else job.schedule, parses))
  }

  // Restoring a pending or scheduled job and then running it comes to the executor's own decision
  // exactly when its fields agree.
  lemma GatesAgreeExactly(job: Job, parses: string -> bool)
    ensures job.status == JobPending || job.status == JobScheduled ==>
      (DecisionOf(job, parses) == ExecutorGate(job, parses) <==> FieldsAgree(job, parses))
    ensures job.status != JobPending && job.status != JobScheduled ==>
      DecisionOf(job, parses) == ExecutorGate(job, parses)
    ensures OneSpelling(job) ==> DecisionOf(job, parses) == ExecutorGate(job, parses)
    ensures DecisionOf(job, parses) == ExecutorGate(job, parses) ==>
      RestoredThenRun(job, parses).status == AfterGate(job, parses).status
  {
  }

  // JobRecord.from_dict: whatever a stored dict holds, the record has the private fields alone, and
  // both repositories hand out and write back records.
  function FromDict(job: Job): Job {
    job.(media := if job.media.Some? then job.media else Some([]), publicMedia := None, publicSchedule := None)
  }

  // So the two gates agree on every job a repository returns.
  lemma RecordsAgree(stored: Job, parses: string -> bool)
    ensures var job := FromDict(stored);
      && DecisionOf(job, parses) == ExecutorGate(job, parses)
      && RestoredThenRun(job, parses).status == AfterGate(job, parses).status
      && FromDict(job) == job
      && ExecutorGate(job, parses) == ExecutorGate(stored.(publicSchedule := None), parses)
  {
    GatesAgreeExactly(FromDict(stored), parses);
    assert !HasRunnableMedia(None) && !HasRunnableMedia(Some([]));
  }

  // ---- the executor's decision, on the fields ----

  lemma GateExactly(job: Job, parses: string -> bool)
    ensures var decision := ExecutorGate(job, parses);
      var runs := job.media.Some? && exists p :: p in job.media.value && !Blank(p);
      var at := if job.schedule.Some? && job.schedule.value != "" then job.schedule else job.publicSchedule;
      var due := at.Some? && !Blank(at.value) && parses(at.value);
      && (decision == ConsumeStop <==> job.status == JobStopped)
      && (decision == NeedsMedia <==> (job.status == JobPending || job.status == JobScheduled) && !runs)
      && (decision == InvalidSchedule <==> job.status == JobScheduled && runs && !due)
      && (decision == Runnable <==> runs && (job.status == JobPending || (job.status == JobScheduled && due)))
  {
  }

  // How `run` leaves a job that it refuses, rows of distinct accounts taken one by one: a row with an
  // account that has not succeeded says why, any other stays.
  lemma RefusedJobExactly(job: Job, parses: string -> bool)
    requires DistinctIds(job.rows) && ExecutorGate(job, parses) != Runnable
    ensures var decision, after := ExecutorGate(job, parses), AfterGate(job, parses);
      && |after.rows| == |job.rows|
      && after.status == (if decision == NeedsMedia then JobNeedsMedia
                          else if decision == InvalidSchedule then JobFailed else job.status)
      && forall k :: 0 <= k < |job.rows| ==>
           if (decision == NeedsMedia || decision == InvalidSchedule)
              && job.rows[k].accountId != "" && job.rows[k].status != Success
           then && after.rows[k].accountId == job.rows[k].accountId
                && after.rows[k].status == (if decision == NeedsMedia then Pending else Failed)
                && after.rows[k].errorCode
                   == Some(if decision == NeedsMedia then "media_required" else "invalid_schedule")
                && after.rows[k].error.Some?
           else after.rows[k] == job.rows[k]
  {
    RefusedRows(job.rows, |job.rows|, Pending, MEDIA_REQUIRED_MESSAGE, MEDIA_REQUIRED_CODE);
    RefusedRows(job.rows, |job.rows|, Failed, INVALID_SCHEDULE_MESSAGE, INVALID_SCHEDULE_CODE);
    hide Refused, DistinctIds, ExecutorGate;
  }

  // ... and one that it runs: as it is, but for its status.
  lemma RunJobExactly(job: Job, parses: string -> bool)
    requires ExecutorGate(job, parses) == Runnable
    ensures AfterGate(job, parses).rows == job.rows && AfterGate(job, parses).media == job.media
    ensures AfterGate(job, parses).status == JobCompleted <==> job.rows == []
    ensures AfterGate(job, parses).status == JobRunning <==> job.rows != []
  {
  }

  // ---- rows of a blocked job ----

  lemma RefuseOwnRow(rows: seq<Row>, k: nat, st: RowStatus, message: string, code: string)
    requires DistinctIds(rows) && k < |rows|
    ensures RefuseRow(rows, k, st, message, code)
         == if Spared(rows[k]) then rows else rows[k := Written(rows[k], st, Some(message), Some(code))]
  {
    FirstOfDistinct(rows, k);
  }

  lemma SameIdsDistinct(rows: seq<Row>, others: seq<Row>)
    requires DistinctIds(rows) && |others| == |rows|
    requires forall i :: 0 <= i < |rows| ==> others[i].accountId == rows[i].accountId
    ensures DistinctIds(others)
  {
  }

  lemma {:induction false} RefusedRows(rows: seq<Row>, k: nat, st: RowStatus, message: string, code: string)
    requires k <= |rows| && DistinctIds(rows)
    ensures var r := Refused(rows, k, st, message, code);
      forall i :: 0 <= i < |rows| ==>
        r[i] == if i < k && !Spared(rows[i]) then Written(rows[i], st, Some(message), Some(code)) else rows[i]
  {
    if k == 0 {
    } else {
      RefusedRows(rows, k - 1, st, message, code);
      var r := Refused(rows, k - 1, st, message, code);
      hide RefuseRow;
      SameIdsDistinct(rows, r);
      hide DistinctIds;
      RefuseOwnRow(r, k - 1, st, message, code);
    }
  }

  // With distinct accounts the executor and the restore leave the same rows exactly when every
  // row the executor spares -- no account id, or already successful -- already reads as the
  // restore would write it; in particular when it spares none.
  lemma BlockedRowsAgreeExactly(rows: seq<Row>, st: RowStatus, message: string, code: string)
    requires DistinctIds(rows)
    ensures Refused(rows, |rows|, st, message, code) == Annotated(rows, st, message, code)
       <==> forall i :: 0 <= i < |rows| && Spared(rows[i]) ==> rows[i] == Annotated(rows, st, message, code)[i]
  {
    RefusedRows(rows, |rows|, st, message, code);
    var r, a := Refused(rows, |rows|, st, message, code), Annotated(rows, st, message, code);
    assert forall i :: 0 <= i < |rows| ==> (r[i] == a[i] <==> (Spared(rows[i]) ==> rows[i] == a[i]));
    if forall i :: 0 <= i < |rows| && Spared(rows[i]) ==> rows[i] == a[i] {
      assert r == a;
    }
  }

  // A job whose fields agree, whose accounts are distinct and named, and that has succeeded nowhere
  // yet, ends the same whichever gate stops it.
  lemma RestoreThenRunIsRun(job: Job, parses: string -> bool)
    requires FieldsAgree(job, parses) && DistinctIds(job.rows)
    requires forall i :: 0 <= i < |job.rows| ==> !Spared(job.rows[i])
    ensures RestoredThenRun(job, parses) == AfterGate(job, parses)
  {
    GatesAgreeExactly(job, parses);
    BlockedRowsAgreeExactly(job.rows, Pending, MEDIA_REQUIRED_MESSAGE, MEDIA_REQUIRED_CODE);
    BlockedRowsAgreeExactly(job.rows, Failed, INVALID_SCHEDULE_MESSAGE, INVALID_SCHEDULE_CODE);
  }

  // ---- the gate as `run` goes through it ----

  class PostJobExecutor {
    const store: ThreadSafeJobStore

    constructor (store: ThreadSafeJobStore)
      ensures this.store == store
    {
      this.store := store;
    }

    // One turn of the loop below, on the live rows.
    method RefuseTurn(j: string, k: nat, st: RowStatus, message: string, code: string)
      requires store.Valid() && j in store.jobs && k < |store.jobs[j].rows|
      modifies store
      ensures store.Valid()
      ensures store.View() == var v := old(store.View());
        WithRows(v, j, RefuseRow(v.jobs[j].rows, k, st, message, code))
    {
      var row := store.jobs[j].rows[k];
      if row.accountId != "" && row.status != Success {
        var _ := store.UpdateResult(j, row.accountId, st, Some(message), Some(code));
      } else {
        assert store.jobs == store.jobs[j := store.jobs[j].(rows := store.jobs[j].rows)];
      }
    }

    method SetJobNonRunnable(j: string, status: JobStatus, st: RowStatus, message: string, code: string)
      requires store.Valid() && j in store.jobs
      modifies store
      ensures store.Valid()
      ensures store.View() == var v := old(store.View());
        v.(jobs := v.jobs[j := RefuseJob(v.jobs[j], status, st, message, code)]).ClearControl(j)
    {
      hide RefuseRow;
      ghost var v := store.View();
      var _ := store.SetJobStatus(j, status);
      ghost var w := store.View();
      ghost var rows := w.jobs[j].rows;
      var k := 0;
      while k < |store.jobs[j].rows|
        invariant store.Valid() && j in store.jobs && 0 <= k <= |rows|
        invariant store.View() == WithRows(w, j, Refused(rows, k, st, message, code))
      {
        WithRowsTwice(w, j, Refused(rows, k, st, message, code), Refused(rows, k + 1, st, message, code));
        RefuseTurn(j, k, st, message, code);
        k := k + 1;
      }
      store.ClearControl(j);
    }

    // `run` up to the submission of the workers; KeyError for an unknown job.
    method Run(j: string, parses: string -> bool) returns (found: bool, launch: bool)
      requires store.Valid()
      modifies store
      ensures store.Valid()
      ensures found == (j in old(store.jobs))
      ensures !found ==> store.View() == old(store.View())
      ensures found ==>
        var v := old(store.View());
        var decision := ExecutorGate(v.jobs[j], parses);
        && launch == (decision == Runnable && v.jobs[j].rows != [])
        && store.jobs == v.jobs[j := AfterGate(v.jobs[j], parses)]
        && store.View() == (if launch || decision == Ignore then v else v.ClearControl(j)).(jobs := store.jobs)
    {
      var job := store.Get(j);
      if job == None {
        return false, false;
      }
      found := true;
      launch := false;
      var status := job.value.status;
      if status == JobStopped {
        store.ClearControl(j);
        return;
      }
      if status != JobPending && status != JobScheduled {
        return;
      }
      var media := if job.value.media.Some? then job.value.media.value else [];
      if !HasRunnableMedia(Some(media)) {
        SetJobNonRunnable(j, JobNeedsMedia, Pending, MEDIA_REQUIRED_MESSAGE, MEDIA_REQUIRED_CODE);
        return;
      }
      var scheduledAt := ExecutorSchedule(job.value);
      if status == JobScheduled && !ValidSchedule(scheduledAt, parses) {
        SetJobNonRunnable(j, JobFailed, Failed, INVALID_SCHEDULE_MESSAGE, INVALID_SCHEDULE_CODE);
        return;
      }
      var _ := store.SetJobStatus(j, JobRunning);
      if job.value.rows == [] {
        var _ := store.SetJobStatus(j, JobCompleted);
        store.ClearControl(j);
        return;
      }
      launch := true;
    }
  }

  // ---- the restore as `_restore_pending_jobs` goes through its jobs ----

  // The job as the restore leaves it.
  function LeftBy(restored: Restored, job: Job): Job {
    match restored
    case Blocked(blocked) => blocked
    case _ => job
  }

  // What the first `n` jobs put on the queue: position and due time, in the order of the jobs.
  function Queued(jobs: seq<Job>, n: nat, parses: string -> bool): seq<(nat, Option<string>)>
    requires n <= |jobs|
  {
    if n == 0 then []
    else Queued(jobs, n - 1, parses)
         + match Restore(jobs[n - 1], parses) case Enqueued(at) => [(n - 1, at)] case _ => []
  }

  // The repository's jobs in order, and the jobs handed to the scheduler.
  // The restore enqueues a job, on its fields: it is pending or scheduled, the media field that is
  // present has a path that is not blank, and if it is scheduled the schedule that is present is not
  // blank and parses.
  ghost predicate Wanted(job: Job, parses: string -> bool) {
    var paths := if job.publicMedia.Some? then job.publicMedia else job.media;
    var at := if job.publicSchedule.Some? then job.publicSchedule else job.schedule;
    && (job.status == JobPending || job.status == JobScheduled)
    && paths.Some? && (exists p :: p in paths.value && !Blank(p))
    && (job.status == JobScheduled ==> at.Some? && !Blank(at.value) && parses(at.value))
  }

  // When it is due: at once if pending, at the schedule that is present if scheduled.
  function DueAt(job: Job): Option<string> {
    if job.status == JobPending then None
    else if job.publicSchedule.Some? then job.publicSchedule else job.schedule
  }

  // A job that is blocked, and how: every row says why.
  lemma RestoreExactly(job: Job, parses: string -> bool)
    ensures Restore(job, parses).Enqueued? <==> Wanted(job, parses)
    ensures Restore(job, parses).Enqueued? ==> Restore(job, parses).at == DueAt(job)
    ensures Restore(job, parses).NotEligible? <==> job.status != JobPending && job.status != JobScheduled
    ensures Restore(job, parses).Blocked? ==>
      var paths := if job.publicMedia.Some? then job.publicMedia else job.media;
      var blocked := Restore(job, parses).job;
      var noMedia := paths == None || forall p :: p in paths.value ==> Blank(p);
      && blocked.status == (if noMedia then JobNeedsMedia else JobFailed)
      && blocked == job.(status := blocked.status, rows := blocked.rows) && |blocked.rows| == |job.rows|
      && forall k :: 0 <= k < |job.rows| ==>
           && blocked.rows[k].accountId == job.rows[k].accountId
           && blocked.rows[k].status == (if noMedia then Pending else Failed)
           && blocked.rows[k].errorCode == Some(if noMedia then "media_required" else "invalid_schedule")
           && blocked.rows[k].error.Some?
  {
  }

  // The queue holds exactly the jobs that are wanted, each once and in their order, with the times at
  // which they are due.
  ghost predicate QueuesWanted(queue: seq<(nat, Option<string>)>, jobs: seq<Job>, n: nat, parses: string -> bool)
    requires n <= |jobs|
  {
    && (forall k :: 0 <= k < |queue| ==>
          queue[k].0 < n && Wanted(jobs[queue[k].0], parses) && queue[k].1 == DueAt(jobs[queue[k].0]))
    && (forall j, k :: 0 <= j < k < |queue| ==> queue[j].0 < queue[k].0)
    && (forall i: nat :: i < n && Wanted(jobs[i], parses) ==> Queues(queue, i))
  }

  ghost predicate Queues(queue: seq<(nat, Option<string>)>, i: nat) {
    exists k :: 0 <= k < |queue| && queue[k].0 == i
  }

  lemma {:induction false} QueueExactly(jobs: seq<Job>, n: nat, parses: string -> bool)
    requires n <= |jobs|
    ensures QueuesWanted(Queued(jobs, n, parses), jobs, n, parses)
  {
    if n == 0 {
    } else {
      QueueExactly(jobs, n - 1, parses);
      OneMoreJob(jobs, n, parses);
      hide Queued;
      OneMoreWanted(Queued(jobs, n - 1, parses), jobs, n, parses);
    }
  }

  lemma OneMoreWanted(before: seq<(nat, Option<string>)>, jobs: seq<Job>, n: nat, parses: string -> bool)
    requires 0 < n <= |jobs| && QueuesWanted(before, jobs, n - 1, parses)
    ensures QueuesWanted(
      before + if Wanted(jobs[n - 1], parses) then [(n - 1, DueAt(jobs[n - 1]))] else [], jobs, n, parses)
  {
    hide Wanted, DueAt;
    if Wanted(jobs[n - 1], parses) {
      var queue := before + [(n - 1, DueAt(jobs[n - 1]))];
      forall i: nat | i < n && Wanted(jobs[i], parses) ensures Queues(queue, i) {
        QueuesMore(before, n - 1, DueAt(jobs[n - 1]), i);
      }
      hide Queues;
      forall k | 0 <= k < |queue|
        ensures queue[k].0 < n && Wanted(jobs[queue[k].0], parses) && queue[k].1 == DueAt(jobs[queue[k].0])
      {
        assert k < |before| ==> queue[k] == before[k];
      }
      forall j, k | 0 <= j < k < |queue| ensures queue[j].0 < queue[k].0 {
        assert queue[j] == before[j];
        assert k < |before| ==> queue[k] == before[k];
      }
    } else {
      assert before + [] == before;
    }
  }

  lemma QueuesMore(queue: seq<(nat, Option<string>)>, n: nat, at: Option<string>, i: nat)
    ensures Queues(queue, i) || i == n ==> Queues(queue + [(n, at)], i)
  {
    if i == n {
      assert (queue + [(n, at)])[|queue|].0 == i;
    } else if Queues(queue, i) {
      var k :| 0 <= k < |queue| && queue[k].0 == i;
      assert (queue + [(n, at)])[k].0 == i;
    }
  }

  lemma OneMoreJob(jobs: seq<Job>, n: nat, parses: string -> bool)
    requires 0 < n <= |jobs|
    ensures Queued(jobs, n, parses)
         == Queued(jobs, n - 1, parses) + if Wanted(jobs[n - 1], parses) then [(n - 1, DueAt(jobs[n - 1]))] else []
  {
    RestoreExactly(jobs[n - 1], parses);
    hide Wanted, DueAt, Restore;
  }

  // The jobs when the first `n` have been looked at.
  function LeftAll(jobs: seq<Job>, n: nat, parses: string -> bool): (left: seq<Job>)
    requires n <= |jobs|
    ensures |left| == |jobs|
  {
    seq(|jobs|, k requires 0 <= k < |jobs| => if k < n then LeftBy(Restore(jobs[k], parses), jobs[k]) else jobs[k])
  }

  lemma OneMoreLeft(jobs: seq<Job>, n: nat, parses: string -> bool)
    requires n < |jobs|
    ensures LeftAll(jobs, n, parses)[n] == jobs[n]
    ensures LeftAll(jobs, n + 1, parses)
         == LeftAll(jobs, n, parses)[n := LeftBy(Restore(jobs[n], parses), jobs[n])]
    ensures Queued(jobs, n + 1, parses)
         == Queued(jobs, n, parses) + match Restore(jobs[n], parses) case Enqueued(at) => [(n, at)] case _ => []
  {
    hide Restore, LeftBy;
  }

  class JobRestorer {
    var jobs: seq<Job>
    var enqueued: seq<(nat, Option<string>)>

    constructor (jobs: seq<Job>)
      ensures this.jobs == jobs && enqueued == []
    {
      this.jobs := jobs;
      enqueued := [];
    }

    method RestorePendingJobs(parses: string -> bool)
      modifies this
      ensures |jobs| == |old(jobs)|
      ensures forall i :: 0 <= i < |jobs| ==> jobs[i] == LeftBy(Restore(old(jobs)[i], parses), old(jobs)[i])
      ensures enqueued == old(enqueued) + Queued(old(jobs), |old(jobs)|, parses)
    {
      ghost var start, queue := jobs, enqueued;
      assert LeftAll(start, 0, parses) == start && queue + Queued(start, 0, parses) == queue;
      var i := 0;
      while i < |jobs|
        invariant 0 <= i <= |start| && jobs == LeftAll(start, i, parses)
        invariant enqueued == queue + Queued(start, i, parses)
      {
        OneMoreLeft(start, i, parses);
        hide Restore, LeftAll, LeftBy, Queued;
        RestoreOne(i, parses);
        i := i + 1;
      }
    }

    method RestoreOne(i: nat, parses: string -> bool)
      requires i < |jobs|
      modifies this
      ensures jobs == old(jobs)[i := LeftBy(Restore(old(jobs)[i], parses), old(jobs)[i])]
      ensures enqueued == match Restore(old(jobs)[i], parses)
                          case Enqueued(at) => old(enqueued) + [(i, at)] case _ => old(enqueued)
    {
      var job := jobs[i];
      if job.status != JobPending && job.status != JobScheduled {
        return;
      }
      var scheduledAt := RestoreSchedule(job);
      if !HasRunnableMedia(RestoreMedia(job)) {
        var rows := AnnotateJobResults(job.rows, Pending, MEDIA_REQUIRED_MESSAGE, MEDIA_REQUIRED_CODE);
        jobs := jobs[i := job.(status := JobNeedsMedia, rows := rows)];
        return;
      }
      if job.status == JobScheduled && !ValidSchedule(scheduledAt, parses) {
        var rows := AnnotateJobResults(job.rows, Failed, INVALID_SCHEDULE_MESSAGE, INVALID_SCHEDULE_CODE);
        jobs := jobs[i := job.(status := JobFailed, rows := rows)];
        return;
      }
      enqueued := enqueued + [(i, if job.status == JobScheduled then scheduledAt else None)];
    }

    static method AnnotateJobResults(rows: seq<Row>, st: RowStatus, message: string, code: string)
      returns (annotated: seq<Row>)
      ensures annotated == Annotated(rows, st, message, code)
    {
      annotated := [];
      for i := 0 to |rows|
        invariant annotated == Annotated(rows[..i], st, message, code)
      {
        var row := rows[i].(status := st, error := Some(message), errorCode := Some(code));
        annotated := annotated + [row];
      }
      assert rows[..|rows|] == rows;
    }
  }
}
