// Job rows, job statuses and the stop/pause control of backend/state.py.
//
// `Store` is the value of the fields of `ThreadSafeJobStore` with one function per critical
// section; the class below it is the object.  A `threading.Event` is an index into `events`,
// which holds its flag; two references are the same event exactly when the indices are equal.
module JobStore {
  import opened Options

  datatype RowStatus = Pending | Uploading | Success | Failed | Skipped

  // One entry of a job's `results`.
  datatype Row = Row(accountId: string, status: RowStatus, error: Option<string>, errorCode: Option<string>)

  datatype JobStatus =
    | JobPending | JobScheduled | JobRunning | JobPaused | JobStopped
    | JobNeedsMedia | JobCompleted | JobPartial | JobFailed
    | JobOther(text: string)

  // `media` and `schedule` are the keys `_media_paths` and `_scheduled_at`; the public pair are
  // `media_paths` and `scheduled_at`, which a job given as a dict may carry as well.
  datatype Job = Job(
    status: JobStatus, rows: seq<Row>,
    media: Option<seq<string>>, schedule: Option<string>,
    publicMedia: Option<seq<string>>, publicSchedule: Option<string>)

  datatype Tally = Tally(success: nat, failed: nat, skipped: nat)

  // ---- rows ----

  predicate Terminal(st: RowStatus) {
    st == Success || st == Failed || st == Skipped
  }

  ghost predicate DistinctIds(rows: seq<Row>) {
    forall i, j :: 0 <= i < j < |rows| ==> rows[i].accountId != rows[j].accountId
  }

  // The position of the first row of an account, or the number of rows when it has none.
  function FirstOf(rows: seq<Row>, id: string): (k: nat)
    ensures k <= |rows|
    ensures k < |rows| ==> rows[k].accountId == id
    ensures forall i :: 0 <= i < k ==> rows[i].accountId != id
  {
    if rows == [] || rows[0].accountId == id then 0 else 1 + FirstOf(rows[1..], id)
  }

  function Written(row: Row, st: RowStatus, error: Option<string>, code: Option<string>): Row {
    row.(status := st,
         error := if error.Some? then error else row.error,
         errorCode := if code.Some? then code else row.errorCode)
  }

  function WriteRow(rows: seq<Row>, id: string, st: RowStatus, error: Option<string>, code: Option<string>): seq<Row> {
    var k := FirstOf(rows, id);
    if k == |rows| then rows else rows[k := Written(rows[k], st, error, code)]
  }

  lemma FirstOfDistinct(rows: seq<Row>, i: nat)
    requires DistinctIds(rows) && i < |rows|
    ensures FirstOf(rows, rows[i].accountId) == i
  {
  }

  ghost function WithStatus(rows: seq<Row>, st: RowStatus): set<nat> {
    set i: nat | i < |rows| && rows[i].status == st
  }

  ghost function TallyOf(rows: seq<Row>): Tally {
    Tally(|WithStatus(rows, Success)|, |WithStatus(rows, Failed)|, |WithStatus(rows, Skipped)|)
  }

  // What an update leaves to be read: the first row of the account has the status, and the message
  // and the code where one was given; every other row is as it was.
  lemma WriteExactly(rows: seq<Row>, id: string, st: RowStatus, error: Option<string>, code: Option<string>)
    ensures var after := WriteRow(rows, id, st, error, code);
      && |after| == |rows|
      && forall k :: 0 <= k < |rows| ==>
           if rows[k].accountId == id && (forall j :: 0 <= j < k ==> rows[j].accountId != id)
           then && after[k].accountId == id && after[k].status == st
                && after[k].error == (if error == None then rows[k].error else error)
                && after[k].errorCode == (if code == None then rows[k].errorCode else code)
           else after[k] == rows[k]
  {
  }

  // ---- the store as a value ----

  datatype Store = Store(
    jobs: map<string, Job>, stopFlags: map<string, bool>,
    pauseEvents: map<string, nat>, events: seq<bool>)
  {
    ghost predicate Valid() {
      && (forall j :: j in pauseEvents ==> pauseEvents[j] < |events|)
      && (forall j, k :: j in pauseEvents && k in pauseEvents && pauseEvents[j] == pauseEvents[k] ==> j == k)
    }

    function SetJobStatus(j: string, st: JobStatus): Store {
      if j in jobs then this.(jobs := jobs[j := jobs[j].(status := st)]) else this
    }

    function UpdateResult(j: string, id: string, st: RowStatus, error: Option<string>, code: Option<string>): Store {
      if j in jobs then this.(jobs := jobs[j := jobs[j].(rows := WriteRow(jobs[j].rows, id, st, error, code))])
      else this
    }

    predicate StopRequested(j: string) {
      j in stopFlags && stopFlags[j]
    }

    function PauseEvent(j: string): Option<nat> {
      if j in pauseEvents then Some(pauseEvents[j]) else None
    }

    // The event `j` would wait on exists and is unset.
    predicate Paused(j: string) {
      j in pauseEvents && pauseEvents[j] < |events| && !events[pauseEvents[j]]
    }

    function RequestStop(j: string): Store {
      this.(stopFlags := stopFlags[j := true])
    }

    function RequestPause(j: string): Store
      requires j in pauseEvents ==> pauseEvents[j] < |events|
    {
      if j in pauseEvents then this.(events := events[pauseEvents[j] := false])
      else this.(pauseEvents := pauseEvents[j := |events|], events := events + [false])
    }

    function SetEvent(e: nat): Store
      requires e < |events|
    {
      this.(events := events[e := true])
    }

    function ClearControl(j: string): Store {
      this.(stopFlags := stopFlags - {j}, pauseEvents := pauseEvents - {j})
    }

    function Delete(j: string): Store {
      ClearControl(j).(jobs := jobs - {j})
    }
  }

  // ---- the object ----

  // A method that raises KeyError for a missing job returns `found == false` instead.
  // What is forgotten with a job's controls, and with the job: its flag and event, and with the job its
  // rows; those of any other job stay, and so do the events' own states.
  lemma ForgottenExactly(s: Store, j: string)
    ensures !s.ClearControl(j).StopRequested(j) && s.ClearControl(j).PauseEvent(j) == None
    ensures s.ClearControl(j).jobs == s.jobs && s.ClearControl(j).events == s.events
    ensures s.Delete(j) == s.ClearControl(j).(jobs := s.jobs - {j})
    ensures forall other :: other != j ==>
      && (s.ClearControl(j).StopRequested(other) <==> s.StopRequested(other))
      && s.ClearControl(j).PauseEvent(other) == s.PauseEvent(other)
  {
  }

  class ThreadSafeJobStore {
    var jobs: map<string, Job>
    var stopFlags: map<string, bool>
    var pauseEvents: map<string, nat>
    var events: seq<bool>

    ghost function View(): Store
      reads this
    {
      Store(jobs, stopFlags, pauseEvents, events)
    }

    ghost predicate Valid()
      reads this
    {
      View().Valid()
    }

    constructor ()
      ensures Valid()
      ensures View() == Store(map[], map[], map[], [])
    {
      jobs := map[];
      stopFlags := map[];
      pauseEvents := map[];
      events := [];
    }

    method Put(j: string, job: Job)
      modifies this
      ensures View() == old(View()).(jobs := old(jobs)[j := job])
    {
      jobs := jobs[j := job];
    }

    method Get(j: string) returns (job: Option<Job>)
      ensures job == if j in jobs then Some(jobs[j]) else None
    {
      job := if j in jobs then Some(jobs[j]) else None;
    }

    method SetJobStatus(j: string, st: JobStatus) returns (found: bool)
      modifies this
      ensures found == (j in old(jobs))
      ensures View() == old(View()).SetJobStatus(j, st)
    {
      found := j in jobs;
      if found {
        jobs := jobs[j := jobs[j].(status := st)];
      }
    }

    method UpdateResult(j: string, id: string, st: RowStatus, error: Option<string>, code: Option<string>)
      returns (found: bool)
      modifies this
      ensures found == (j in old(jobs))
      ensures View() == old(View()).UpdateResult(j, id, st, error, code)
    {
      if j !in jobs {
        return false;
      }
      var rows := jobs[j].rows;
      var k := 0;
      while k < |rows|
        invariant 0 <= k <= |rows|
        invariant forall i :: 0 <= i < k ==> rows[i].accountId != id
      {
        if rows[k].accountId == id {
          var row := rows[k].(status := st);
          if error.Some? {
            row := row.(error := error);
          }
          if code.Some? {
            row := row.(errorCode := code);
          }
          assert FirstOf(rows, id) == k;
          jobs := jobs[j := jobs[j].(rows := rows[k := row])];
          return true;
        }
        k := k + 1;
      }
      assert FirstOf(rows, id) == |rows|;
      assert jobs[j := jobs[j].(rows := rows)] == jobs;
      return true;
    }

    method GetResultStatus(j: string, id: string) returns (found: bool, st: Option<RowStatus>)
      ensures found == (j in jobs)
      ensures found ==> var rows := jobs[j].rows;
                        var k := FirstOf(rows, id);
                        st == if k < |rows| then Some(rows[k].status) else None
    {
      if j !in jobs {
        return false, None;
      }
      var rows := jobs[j].rows;
      var k := 0;
      while k < |rows|
        invariant 0 <= k <= |rows|
        invariant forall i :: 0 <= i < k ==> rows[i].accountId != id
      {
        if rows[k].accountId == id {
          return true, Some(rows[k].status);
        }
        k := k + 1;
      }
      return true, None;
    }

    method TallyResults(j: string) returns (found: bool, tally: Tally)
      ensures found == (j in jobs)
      ensures found ==> tally == TallyOf(jobs[j].rows)
    {
      tally := Tally(0, 0, 0);
      if j !in jobs {
        return false, tally;
      }
      var success := CountStatus(jobs[j].rows, RowStatus.Success);
      var failed := CountStatus(jobs[j].rows, RowStatus.Failed);
      var skipped := CountStatus(jobs[j].rows, RowStatus.Skipped);
      return true, Tally(success, failed, skipped);
    }

    static method CountStatus(rows: seq<Row>, st: RowStatus) returns (n: nat)
      ensures n == |WithStatus(rows, st)|
    {
      n := 0;
      var k := 0;
      ghost var seen: set<nat> := {};
      while k < |rows|
        invariant 0 <= k <= |rows|
        invariant seen == set i: nat | i < k && rows[i].status == st
        invariant n == |seen|
      {
        if rows[k].status == st {
          n := n + 1;
          seen := seen + {k};
        }
        k := k + 1;
      }
      assert seen == WithStatus(rows, st);
    }

    // The critical section of `request_stop`: raises the flag and reads the event to release.
    method FlagStop(j: string) returns (evt: Option<nat>)
      requires Valid()
      modifies this
      ensures Valid()
      ensures View() == old(View()).RequestStop(j)
      ensures evt == old(View()).PauseEvent(j)
    {
      stopFlags := stopFlags[j := true];
      evt := if j in pauseEvents then Some(pauseEvents[j]) else None;
    }

    // `Event.set`, which `request_stop` and `request_resume` call outside the lock.
    method SetEvent(e: nat)
      requires Valid() && e < |events|
      modifies this
      ensures Valid()
      ensures View() == old(View()).SetEvent(e)
    {
      events := events[e := true];
    }

    method RequestStop(j: string)
      requires Valid()
      modifies this
      ensures Valid()
      ensures !View().Paused(j) && View().StopRequested(j)
      ensures View() == match old(View()).PauseEvent(j)
                        case None => old(View()).RequestStop(j)
                        case Some(e) => old(View()).RequestStop(j).SetEvent(e)
    {
      var evt := FlagStop(j);
      if evt.Some? {
        SetEvent(evt.value);
      }
    }

    method IsStopRequested(j: string) returns (stop: bool)
      ensures stop == View().StopRequested(j)
    {
      stop := j in stopFlags && stopFlags[j];
    }

    method RequestPause(j: string)
      requires Valid()
      modifies this
      ensures Valid() && View().Paused(j)
      ensures View() == old(View()).RequestPause(j)
    {
      if j !in pauseEvents {
        pauseEvents := pauseEvents[j := |events|];
        events := events + [false];
      }
      events := events[pauseEvents[j] := false];
    }

    // The critical section of `request_resume` and of `wait_if_paused`.
    method ReadEvent(j: string) returns (evt: Option<nat>)
      ensures evt == View().PauseEvent(j)
    {
      evt := if j in pauseEvents then Some(pauseEvents[j]) else None;
    }

    method RequestResume(j: string)
      requires Valid()
      modifies this
      ensures Valid() && !View().Paused(j)
      ensures View() == match old(View()).PauseEvent(j)
                        case None => old(View())
                        case Some(e) => old(View()).SetEvent(e)
    {
      var evt := ReadEvent(j);
      if evt.Some? {
        SetEvent(evt.value);
      }
    }

    method ClearControl(j: string)
      requires Valid()
      modifies this
      ensures Valid()
      ensures View() == old(View()).ClearControl(j)
    {
      stopFlags := stopFlags - {j};
      pauseEvents := pauseEvents - {j};
    }

    method Delete(j: string) returns (existed: bool)
      requires Valid()
      modifies this
      ensures Valid()
      ensures existed == (j in old(jobs))
      ensures View() == old(View()).Delete(j)
    {
      existed := j in jobs;
      jobs := jobs - {j};
      stopFlags := stopFlags - {j};
      pauseEvents := pauseEvents - {j};
    }

    method Clear()
      modifies this
      ensures Valid()
      ensures View() == Store(map[], map[], map[], old(events))
    {
      jobs := map[];
      stopFlags := map[];
      pauseEvents := map[];
    }
  }
}
