// A retry of a post job (`retry_job` in backend/app/application/use_cases/post_job.py and its route in
// backend/app/adapters/http/routers/posts.py), and the cleanup that every run ends with.
//
// Nothing keeps the route from a job whose workers are still running.  `AnyStep` is the engine's
// `Step` with the two things the route then does to that job; runs of `Step` alone are the runs in
// which it is not retried.
module PostJobRetry {
  import opened Options
  import opened Runs
  import opened JobStore
  import opened PostJobEngine

  // What a retry does to a row: `error` is cleared, the error code stays.
  function Reset(row: Row): Row {
    if row.status == Failed || row.status == Pending || row.status == Skipped
    then row.(status := Pending, error := None) else row
  }

  function ResetAll(rows: seq<Row>): seq<Row> {
    seq(|rows|, i requires 0 <= i < |rows| => Reset(rows[i]))
  }

  // `None`: the job has no status that can be retried.
  function Retried(job: Job): Option<Job> {
    if job.status != JobFailed && job.status != JobStopped && job.status != JobPartial then None
    else Some(Job(JobPending, ResetAll(job.rows), job.media, None, None, None))
  }

  method RetryJob(found: Option<Job>) returns (updated: Option<Job>)
    ensures updated == if found.Some? then Retried(found.value) else None
  {
    if found == None {
      return None;
    }
    var job := found.value;
    if job.status != JobFailed && job.status != JobStopped && job.status != JobPartial {
      return None;
    }
    var rows := [];
    for i := 0 to |job.rows|
      invariant rows == ResetAll(job.rows)[..i]
    {
      var row := job.rows[i];
      if row.status == Failed || row.status == Pending || row.status == Skipped {
        row := row.(status := Pending, error := None);
      }
      rows := rows + [row];
    }
    assert rows == ResetAll(job.rows);
    return Some(Job(JobPending, rows, job.media, None, None, None));
  }

  // Which jobs a retry takes, and what it makes of them: a pending job with the same media and
  // accounts and no schedule; a row that succeeded or is being uploaded stays, any other is pending.
  lemma RetriedExactly(job: Job)
    ensures Retried(job).Some? <==> job.status == JobFailed || job.status == JobStopped || job.status == JobPartial
    ensures Retried(job).Some? ==>
      var after := Retried(job).value;
      && after.status == JobPending && after.media == job.media && after.schedule == None
      && |after.rows| == |job.rows|
      && forall k :: 0 <= k < |job.rows| ==>
           if job.rows[k].status == Success || job.rows[k].status == Uploading then after.rows[k] == job.rows[k]
           else after.rows[k] == Row(job.rows[k].accountId, Pending, None, job.rows[k].errorCode)
  {
  }

  // ---- a retry of the running job ----

  datatype Event =
    | Ordinary(action: Action)
    | RetryClears                 // clear_control, before the status is looked at
    | RetryResets                 // retry_job; not possible unless the job can be retried

  function ResetJob(s: System): Option<System> {
    if s.job !in s.store.jobs then None
    else
      match Retried(s.store.jobs[s.job])
      case None => None
      case Some(job) => Some(s.(store := s.store.(jobs := s.store.jobs[s.job := job])))
  }

  ghost function AnyStep(s: System, e: Event): Option<System> {
    match e
    case Ordinary(a) => Step(s, a)
    case RetryClears => Some(s.(store := s.store.ClearControl(s.job)))
    case RetryResets => ResetJob(s)
  }

  function Ordinaries(run: seq<Action>): seq<Event> {
    seq(|run|, k requires 0 <= k < |run| => Ordinary(run[k]))
  }

  // The engine's runs are the runs without a retry.
  lemma {:induction false} OrdinaryRuns(s: System, run: seq<Action>)
    ensures Run(AnyStep, s, Ordinaries(run)) == Run(Step, s, run)
  {
    hide Step;
    if run == [] {
    } else {
      var n := |run| - 1;
      OrdinaryRuns(s, run[..n]);
      assert Ordinaries(run)[..n] == Ordinaries(run[..n]);
    }
  }

  // A schedule played through: what cannot be done when its turn comes is passed over.
  ghost function Played(s: System, schedule: seq<Event>): System {
    if schedule == [] then s
    else
      var t := Played(s, schedule[..|schedule| - 1]);
      match AnyStep(t, schedule[|schedule| - 1])
      case None => t
      case Some(u) => u
  }

  lemma {:induction false} PlayedIsARun(s: System, schedule: seq<Event>) returns (run: seq<Event>)
    ensures Run(AnyStep, s, run) == Some(Played(s, schedule))
    ensures forall e :: e in run ==> e in schedule
  {
    hide AnyStep;
    run := [];
    if schedule == [] {
    } else {
      var n := |schedule| - 1;
      run := PlayedIsARun(s, schedule[..n]);
      if AnyStep(Played(s, schedule[..n]), schedule[n]).Some? {
        RunOne(AnyStep, s, run, schedule[n]);
        run := run + [schedule[n]];
      }
    }
  }

  function Actions(run: seq<Event>): seq<Action>
    requires forall e :: e in run ==> e.Ordinary?
  {
    seq(|run|, k requires 0 <= k < |run| => run[k].action)
  }

  // A schedule without retries plays one of the engine's runs.
  lemma PlayedIsOrdinary(s: System, schedule: seq<Event>) returns (run: seq<Action>)
    requires forall e :: e in schedule ==> e.Ordinary?
    ensures Run(Step, s, run) == Some(Played(s, schedule))
  {
    var events := PlayedIsARun(s, schedule);
    run := Actions(events);
    assert forall k :: 0 <= k < |events| ==> events[k] in events && Ordinaries(run)[k] == events[k];
    assert Ordinaries(run) == events;
    OrdinaryRuns(s, run);
  }

  // ---- cleanup ----

  predicate EndsWith(path: string, suffix: string) {
    |path| >= |suffix| && path[|path| - |suffix|..] == suffix
  }

  // The files a run removes when it ends: its media, and the preview beside a movie.
  function Removed(paths: seq<string>): set<string> {
    if paths == [] then {}
    else
      var path := paths[|paths| - 1];
      Removed(paths[..|paths| - 1]) + {path}
        + if EndsWith(path, ".mp4") || EndsWith(path, ".mov") then {path + ".jpg"} else {}
  }

  predicate Movie(path: string) {
    EndsWith(path, ".mp4") || EndsWith(path, ".mov")
  }

  // A file is removed exactly if it is one of the media or stands beside a movie among them.
  lemma {:induction false} RemovedExactly(paths: seq<string>, file: string)
    ensures file in Removed(paths) <==> file in paths || exists p :: p in paths && Movie(p) && file == p + ".jpg"
  {
    if paths == [] {
    } else {
      var n := |paths| - 1;
      RemovedExactly(paths[..n], file);
      assert forall p :: p in paths <==> p in paths[..n] || p == paths[n];
    }
  }

  lemma {:induction false} MediaAreRemoved(paths: seq<string>)
    ensures forall p :: p in paths ==> p in Removed(paths)
  {
    if paths == [] {
    } else {
      MediaAreRemoved(paths[..|paths| - 1]);
      forall p | p in paths ensures p in Removed(paths) {
        assert p in paths[..|paths| - 1] || p == paths[|paths| - 1];
      }
    }
  }

  method CleanupTempFiles(paths: seq<string>, files: set<string>) returns (left: set<string>)
    ensures left == files - Removed(paths)
    ensures forall p :: p in paths ==> p !in left
  {
    left := files;
    for k := 0 to |paths|
      invariant left == files - Removed(paths[..k])
    {
      assert paths[..k + 1][..k] == paths[..k];
      var path := paths[k];
      left := left - {path};
      if EndsWith(path, ".mp4") || EndsWith(path, ".mov") {
        left := left - {path + ".jpg"};
      }
    }
    assert paths[..|paths|] == paths;
    MediaAreRemoved(paths);
  }
}
