// `bulk_relogin_accounts` (backend/services_focused/relogin.py): one task per listed id behind a
// semaphore, their relogins running in threads over the shared client and status maps.
//
// Tasks interleave wherever one of them touches shared state.  The waiting two-factor clients are
// not part of this system; how a relogin's attempts end is free.
module BulkRelogin {
  import opened Options
  import opened AccountRegistry
  import Retrying = ReloginRetry
  import Runs

  datatype Row = Row(id: string, client: Option<nat>)

  // Where a task is in `_one`: at the semaphore; about to drop the old client; in the retry loop;
  // about to store its client, then its status; about to record the failure; about to release the
  // semaphore with its row; returned.
  datatype Task =
    | AtSemaphore
    | Popping
    | Trying
    | Installing(client: nat)
    | Activating(client: nat)
    | Failing
    | Releasing(row: Row)
    | Done(row: Row)

  datatype System = System(
    ids: seq<string>,
    clients: map<string, nat>,
    statuses: map<string, Status>,
    permits: nat,
    tasks: seq<Task>)

  // Task `i` goes on to its next interleaving point; `outcome` is how its attempts end, if that is
  // where it is.
  datatype Action = Go(i: nat, outcome: Option<nat>)

  function Start(ids: seq<string>, clients: map<string, nat>, statuses: map<string, Status>, concurrency: nat): System {
    System(ids, clients, statuses, concurrency, seq(|ids|, _ => AtSemaphore))
  }

  function Moved(s: System, i: nat, task: Task): System
    requires i < |s.tasks|
  {
    s.(tasks := s.tasks[i := task])
  }

  function TaskStep(s: System, a: Action): Option<System> {
    if a.i >= |s.tasks| || |s.tasks| != |s.ids| then None
    else
      var id := s.ids[a.i];
      match s.tasks[a.i]
      case AtSemaphore => if s.permits == 0 then None else Some(Moved(s, a.i, Popping).(permits := s.permits - 1))
      case Popping => Some(Moved(s, a.i, Trying).(clients := s.clients - {id}))
      case Trying => Some(Moved(s, a.i, if a.outcome.Some? then Installing(a.outcome.value) else Failing))
      case Installing(client) => Some(Moved(s, a.i, Activating(client)).(clients := s.clients[id := client]))
      case Activating(client) =>
        Some(Moved(s, a.i, Releasing(Row(id, Some(client)))).(statuses := s.statuses[id := Active]))
      case Failing => Some(Moved(s, a.i, Releasing(Row(id, None))).(statuses := s.statuses[id := Error]))
      case Releasing(row) => Some(Moved(s, a.i, Done(row)).(permits := s.permits + 1))
      case Done(_) => None
  }

  predicate InFlight(task: Task) {
    !task.AtSemaphore? && !task.Done?
  }

  function FlightCount(tasks: seq<Task>): nat {
    if tasks == [] then 0
    else FlightCount(tasks[..|tasks| - 1]) + if InFlight(tasks[|tasks| - 1]) then 1 else 0
  }

  predicate Finished(s: System) {
    forall i :: 0 <= i < |s.tasks| ==> s.tasks[i].Done?
  }

  // The account ends with a client and "active", or with no client and "error".
  predicate Settled(s: System, id: string) {
    && id in s.statuses
    && s.statuses[id] == if id in s.clients then Active else Error
  }

  // The row tells what the maps hold.
  predicate Shows(s: System, row: Row) {
    && Settled(s, row.id)
    && row.client == if row.id in s.clients then Some(s.clients[row.id]) else None
  }

  predicate Fits(s: System, id: string, task: Task) {
    match task
    case AtSemaphore => true
    case Popping => true
    case Trying => id !in s.clients
    case Installing(_) => id !in s.clients
    case Activating(client) => id in s.clients && s.clients[id] == client
    case Failing => id !in s.clients
    case Releasing(row) => row.id == id && Shows(s, row)
    case Done(row) => row.id == id
  }

  ghost predicate Alone(s: System) {
    forall i, j :: 0 <= i < j < |s.tasks| && j < |s.ids| && InFlight(s.tasks[i]) && InFlight(s.tasks[j]) ==>
      s.ids[i] != s.ids[j]
  }

  // A task in flight works on this id.
  ghost predicate Attended(s: System, id: string) {
    exists i :: 0 <= i < |s.tasks| && i < |s.ids| && s.ids[i] == id && InFlight(s.tasks[i])
  }

  ghost predicate SameAt(s: System, t: System, id: string) {
    && (id in s.clients <==> id in t.clients) && (id in s.clients ==> s.clients[id] == t.clients[id])
    && (id in s.statuses <==> id in t.statuses) && (id in s.statuses ==> s.statuses[id] == t.statuses[id])
  }

  ghost predicate Sound(s: System, start: System, concurrency: nat) {
    && s.ids == start.ids && |s.tasks| == |s.ids|
    && s.permits + FlightCount(s.tasks) == concurrency
    && (forall i :: 0 <= i < |s.tasks| ==> Fits(s, s.ids[i], s.tasks[i]))
    && (forall i :: 0 <= i < |s.tasks| && s.tasks[i].Done? ==> Settled(s, s.ids[i]) || Attended(s, s.ids[i]))
    && (forall id :: id !in s.ids ==> SameAt(start, s, id))
  }

  lemma {:induction false} OneTaskMoved(tasks: seq<Task>, i: nat, task: Task)
    requires i < |tasks|
    ensures FlightCount(tasks[i := task])
         == FlightCount(tasks) - (if InFlight(tasks[i]) then 1 else 0) + (if InFlight(task) then 1 else 0)
  {
    var n := |tasks| - 1;
    if i == n {
      assert tasks[i := task][..n] == tasks[..n];
    } else {
      OneTaskMoved(tasks[..n], i, task);
      assert tasks[i := task][..n] == tasks[..n][i := task];
    }
  }

  lemma {:induction false} TwoInFlight(tasks: seq<Task>, i: nat, j: nat)
    requires i < j < |tasks| && InFlight(tasks[i]) && InFlight(tasks[j])
    ensures FlightCount(tasks) >= 2
  {
    var n := |tasks| - 1;
    if j < n {
      TwoInFlight(tasks[..n], i, j);
    } else {
      OneInFlight(tasks[..n], i);
    }
  }

  lemma {:induction false} OneInFlight(tasks: seq<Task>, i: nat)
    requires i < |tasks| && InFlight(tasks[i])
    ensures FlightCount(tasks) >= 1
  {
    if i < |tasks| - 1 {
      OneInFlight(tasks[..|tasks| - 1], i);
    }
  }

  // Distinct ids, or a semaphore of one, keep any two tasks from working on one account.
  lemma SoundIsAlone(s: System, start: System, concurrency: nat)
    requires Sound(s, start, concurrency) && (Distinct(s.ids) || concurrency <= 1)
    ensures Alone(s)
  {
    if !Distinct(s.ids) {
      forall i, j | 0 <= i < j < |s.tasks| && InFlight(s.tasks[i]) && InFlight(s.tasks[j]) ensures false {
        TwoInFlight(s.tasks, i, j);
      }
    }
  }

  // A step of task `i` moves no other task, and touches the maps at its own id only.
  ghost predicate Local(s: System, t: System, i: nat) {
    && i < |s.tasks| == |t.tasks| && t.ids == s.ids && |s.ids| == |s.tasks|
    && t.tasks == s.tasks[i := t.tasks[i]]
    && forall id :: id != s.ids[i] ==> SameAt(s, t, id)
  }

  lemma StepIsLocal(s: System, a: Action)
    requires TaskStep(s, a).Some?
    ensures Local(s, TaskStep(s, a).value, a.i)
  {
  }

  lemma StepKeepsFits(s: System, a: Action)
    requires TaskStep(s, a).Some? && Fits(s, s.ids[a.i], s.tasks[a.i])
    ensures var t := TaskStep(s, a).value;
      && Fits(t, s.ids[a.i], t.tasks[a.i])
      && (t.tasks[a.i].Done? ==> Settled(t, s.ids[a.i]))
      && (t.tasks[a.i].Done? || InFlight(t.tasks[a.i])) && !s.tasks[a.i].Done?
      && (s.tasks[a.i].AtSemaphore? ==> t.clients == s.clients && t.statuses == s.statuses)
      && t.permits + (if InFlight(t.tasks[a.i]) then 1 else 0) == s.permits + if InFlight(s.tasks[a.i]) then 1 else 0
  {
  }

  lemma SameFits(s: System, t: System, id: string, task: Task)
    requires Fits(s, id, task) && SameAt(s, t, id)
    ensures Fits(t, id, task)
    ensures Settled(s, id) ==> Settled(t, id)
  {
  }

  lemma OtherTaskFits(s: System, t: System, i: nat, k: nat)
    requires Local(s, t, i) && Alone(s) && k < |s.tasks|
    requires InFlight(s.tasks[i]) || (t.clients == s.clients && t.statuses == s.statuses)
    requires Fits(t, t.ids[i], t.tasks[i]) && Fits(s, s.ids[k], s.tasks[k])
    ensures Fits(t, t.ids[k], t.tasks[k])
  {
    if k != i {
      if s.ids[k] != s.ids[i] || !InFlight(s.tasks[i]) {
        assert SameAt(s, t, s.ids[k]);
        SameFits(s, t, s.ids[k], s.tasks[k]);
      } else {
        assert !InFlight(s.tasks[k]);
      }
    }
  }

  lemma OtherTaskSettles(s: System, t: System, i: nat, k: nat)
    requires Local(s, t, i) && k < |s.tasks| && t.tasks[k].Done?
    requires InFlight(t.tasks[i]) || (t.tasks[i].Done? && Settled(t, t.ids[i]))
    requires s.tasks[k].Done? ==> Settled(s, s.ids[k]) || Attended(s, s.ids[k])
    ensures Settled(t, t.ids[k]) || Attended(t, t.ids[k])
  {
    if s.ids[k] == s.ids[i] {
    } else if Settled(s, s.ids[k]) {
      assert SameAt(s, t, s.ids[k]);
    } else {
      var j :| 0 <= j < |s.tasks| && j < |s.ids| && s.ids[j] == s.ids[k] && InFlight(s.tasks[j]);
      assert t.tasks[j] == s.tasks[j];
    }
  }

  lemma StepKeepsSound(s: System, a: Action, start: System, concurrency: nat)
    requires Sound(s, start, concurrency) && Alone(s) && TaskStep(s, a).Some?
    ensures Sound(TaskStep(s, a).value, start, concurrency)
  {
    var t := TaskStep(s, a).value;
    StepIsLocal(s, a);
    StepKeepsFits(s, a);
    OneTaskMoved(s.tasks, a.i, t.tasks[a.i]);
    hide TaskStep, Fits, Settled, FlightCount;
    forall k | 0 <= k < |t.tasks| ensures Fits(t, t.ids[k], t.tasks[k]) {
      OtherTaskFits(s, t, a.i, k);
    }
    forall k | 0 <= k < |t.tasks| && t.tasks[k].Done? ensures Settled(t, t.ids[k]) || Attended(t, t.ids[k]) {
      OtherTaskSettles(s, t, a.i, k);
    }
    forall id | id !in t.ids ensures SameAt(start, t, id) {
      assert SameAt(start, s, id) && SameAt(s, t, id);
    }
  }

  lemma {:induction false} NoneInFlight(tasks: seq<Task>)
    requires forall i :: 0 <= i < |tasks| ==> !InFlight(tasks[i])
    ensures FlightCount(tasks) == 0
  {
    if tasks == [] {
    } else {
      NoneInFlight(tasks[..|tasks| - 1]);
    }
  }

  lemma {:induction false} RunsStaySound(start: System, concurrency: nat, run: seq<Action>)
    requires start == Start(start.ids, start.clients, start.statuses, concurrency)
    requires Distinct(start.ids) || concurrency <= 1
    requires Runs.Run(TaskStep, start, run).Some?
    ensures Sound(Runs.Run(TaskStep, start, run).value, start, concurrency)
  {
    if run == [] {
      NoneInFlight(start.tasks);
    } else {
      var n := |run| - 1;
      RunsStaySound(start, concurrency, run[..n]);
      var before := Runs.Run(TaskStep, start, run[..n]).value;
      SoundIsAlone(before, start, concurrency);
      StepKeepsSound(before, run[n], start, concurrency);
      hide TaskStep, Sound, Alone;
    }
  }

  // With distinct ids, or one relogin at a time: in every interleaving at most `concurrency` tasks
  // hold a permit; once all have returned, row i is about the i-th id, every listed account has a
  // client and "active" or no client and "error", and every other account is as it was.
  lemma BulkReloginSettles(start: System, concurrency: nat, run: seq<Action>)
    requires start == Start(start.ids, start.clients, start.statuses, concurrency)
    requires Distinct(start.ids) || concurrency <= 1
    requires Runs.Run(TaskStep, start, run).Some?
    ensures var end := Runs.Run(TaskStep, start, run).value;
      && FlightCount(end.tasks) <= concurrency
      && |end.tasks| == |start.ids|
      && (forall id :: id !in start.ids ==> SameAt(start, end, id))
      && (Finished(end) ==>
            && (forall i :: 0 <= i < |start.ids| ==> end.tasks[i].row.id == start.ids[i])
            && (forall id :: id in start.ids ==> Settled(end, id)))
  {
    RunsStaySound(start, concurrency, run);
    var end := Runs.Run(TaskStep, start, run).value;
    hide Runs.Run, TaskStep, Settled, FlightCount;
    if Finished(end) {
      forall id | id in start.ids ensures Settled(end, id) {
        var i :| 0 <= i < |start.ids| && start.ids[i] == id;
        assert end.tasks[i].Done?;
        assert !Attended(end, id);
      }
      forall i | 0 <= i < |start.ids| ensures end.tasks[i].row.id == start.ids[i] {
        assert Fits(end, end.ids[i], end.tasks[i]);
      }
    }
  }

  // Each task that has returned reports what the maps hold for its account.
  ghost predicate Truthful(s: System) {
    forall i :: 0 <= i < |s.tasks| && s.tasks[i].Done? ==> Shows(s, s.tasks[i].row)
  }

  lemma {:induction false} RowsAreTruthful(start: System, concurrency: nat, run: seq<Action>)
    requires start == Start(start.ids, start.clients, start.statuses, concurrency) && Distinct(start.ids)
    requires Runs.Run(TaskStep, start, run).Some?
    ensures Truthful(Runs.Run(TaskStep, start, run).value)
  {
    if run == [] {
    } else {
      var n := |run| - 1;
      RowsAreTruthful(start, concurrency, run[..n]);
      RunsStaySound(start, concurrency, run[..n]);
      var before := Runs.Run(TaskStep, start, run[..n]).value;
      StepKeepsTruthful(before, run[n], start, concurrency);
      hide TaskStep, Sound, Truthful;
    }
  }

  lemma StepKeepsTruthful(s: System, a: Action, start: System, concurrency: nat)
    requires Sound(s, start, concurrency) && Distinct(s.ids) && Truthful(s) && TaskStep(s, a).Some?
    ensures Truthful(TaskStep(s, a).value)
  {
    var t := TaskStep(s, a).value;
    StepIsLocal(s, a);
    assert Fits(s, s.ids[a.i], s.tasks[a.i]);
    ReleaseShows(s, a);
    hide TaskStep, FlightCount;
    forall k | 0 <= k < |t.tasks| && t.tasks[k].Done? ensures Shows(t, t.tasks[k].row) {
      if k != a.i {
        assert Fits(s, s.ids[k], s.tasks[k]);
        assert s.ids[k] != s.ids[a.i];
        assert SameAt(s, t, s.ids[k]);
      }
    }
  }

  lemma ReleaseShows(s: System, a: Action)
    requires TaskStep(s, a).Some? && Fits(s, s.ids[a.i], s.tasks[a.i])
    ensures var t := TaskStep(s, a).value; t.tasks[a.i].Done? ==> Shows(t, t.tasks[a.i].row)
  {
  }

  // ---- progress ----

  function Left(task: Task): nat {
    match task
    case AtSemaphore => 6
    case Popping => 5
    case Trying => 4
    case Installing(_) => 3
    case Activating(_) => 2
    case Failing => 2
    case Releasing(_) => 1
    case Done(_) => 0
  }

  function Remaining(tasks: seq<Task>): nat {
    if tasks == [] then 0 else Remaining(tasks[..|tasks| - 1]) + Left(tasks[|tasks| - 1])
  }

  lemma {:induction false} LessRemains(tasks: seq<Task>, i: nat, task: Task)
    requires i < |tasks|
    ensures Remaining(tasks[i := task]) == Remaining(tasks) - Left(tasks[i]) + Left(task)
  {
    var n := |tasks| - 1;
    if i == n {
      assert tasks[i := task][..n] == tasks[..n];
    } else {
      LessRemains(tasks[..n], i, task);
      assert tasks[i := task][..n] == tasks[..n][i := task];
    }
  }

  lemma {:induction false} AllRemain(tasks: seq<Task>)
    requires forall i :: 0 <= i < |tasks| ==> tasks[i] == AtSemaphore
    ensures Remaining(tasks) == 6 * |tasks|
  {
    if tasks == [] {
    } else {
      AllRemain(tasks[..|tasks| - 1]);
    }
  }

  lemma StepMakesProgress(s: System, a: Action)
    requires TaskStep(s, a).Some?
    ensures Remaining(TaskStep(s, a).value.tasks) < Remaining(s.tasks)
  {
    var t := TaskStep(s, a).value;
    StepIsLocal(s, a);
    LessRemains(s.tasks, a.i, t.tasks[a.i]);
    assert Left(t.tasks[a.i]) < Left(s.tasks[a.i]);
    hide TaskStep, Remaining;
  }

  lemma {:induction false} StepsRunOut(start: System, run: seq<Action>)
    requires forall i :: 0 <= i < |start.tasks| ==> start.tasks[i] == AtSemaphore
    requires Runs.Run(TaskStep, start, run).Some?
    ensures |run| + Remaining(Runs.Run(TaskStep, start, run).value.tasks) <= 6 * |start.tasks|
  {
    if run == [] {
      AllRemain(start.tasks);
    } else {
      StepsRunOut(start, run[..|run| - 1]);
      StepMakesProgress(Runs.Run(TaskStep, start, run[..|run| - 1]).value, run[|run| - 1]);
      hide TaskStep, Remaining;
    }
  }

  // Permits and tasks in flight always make up the semaphore.
  ghost predicate Balanced(s: System, concurrency: nat) {
    |s.tasks| == |s.ids| && s.permits + FlightCount(s.tasks) == concurrency
  }

  lemma StepKeepsBalance(s: System, a: Action, concurrency: nat)
    requires Balanced(s, concurrency) && TaskStep(s, a).Some?
    ensures Balanced(TaskStep(s, a).value, concurrency)
  {
    var t := TaskStep(s, a).value;
    StepIsLocal(s, a);
    OneTaskMoved(s.tasks, a.i, t.tasks[a.i]);
    hide FlightCount;
  }

  // Unless all have returned, some task can go on, if there are any permits at all.
  lemma SomeTaskCanGo(s: System, concurrency: nat) returns (a: Action)
    requires Balanced(s, concurrency) && concurrency >= 1 && !Finished(s)
    ensures TaskStep(s, a).Some?
  {
    var i: nat :| i < |s.tasks| && !s.tasks[i].Done?;
    a := Go(i, None);
    if s.tasks[i].AtSemaphore? && s.permits == 0 {
      if k: nat :| k < |s.tasks| && InFlight(s.tasks[k]) {
        a := Go(k, None);
      } else {
        NoneInFlight(s.tasks);
        assert false;
      }
    }
  }

  // From any state every task can be brought to its return.
  lemma CanFinish(s: System, concurrency: nat) returns (run: seq<Action>)
    requires Balanced(s, concurrency) && concurrency >= 1
    ensures Runs.Run(TaskStep, s, run).Some? && Finished(Runs.Run(TaskStep, s, run).value)
    decreases Remaining(s.tasks)
  {
    run := [];
    if !Finished(s) {
      var a := SomeTaskCanGo(s, concurrency);
      StepKeepsBalance(s, a, concurrency);
      StepMakesProgress(s, a);
      hide TaskStep, Remaining, Balanced, Finished;
      var rest := CanFinish(TaskStep(s, a).value, concurrency);
      Runs.RunCons(TaskStep, s, a, TaskStep(s, a).value, rest);
      run := [a] + rest;
    }
  }

  // The bulk relogin can end exactly if there is nothing to do or a permit to do it with.
  lemma BulkReloginCanFinishExactly(start: System, concurrency: nat)
    requires start == Start(start.ids, start.clients, start.statuses, concurrency)
    ensures (exists run :: Runs.Run(TaskStep, start, run).Some? && Finished(Runs.Run(TaskStep, start, run).value))
       <==> start.ids == [] || concurrency >= 1
  {
    if start.ids == [] {
      assert Runs.Run(TaskStep, start, []) == Some(start);
    } else if concurrency >= 1 {
      NoneInFlight(start.tasks);
      var run := CanFinish(start, concurrency);
    } else {
      forall run | Runs.Run(TaskStep, start, run).Some? ensures !Finished(Runs.Run(TaskStep, start, run).value) {
        NoPermitNoStep(start, run);
        assert !start.tasks[0].Done?;
      }
    }
  }

  lemma {:induction false} NoPermitNoStep(start: System, run: seq<Action>)
    requires start == Start(start.ids, start.clients, start.statuses, 0)
    requires Runs.Run(TaskStep, start, run).Some?
    ensures Runs.Run(TaskStep, start, run) == Some(start)
  {
    if run == [] {
    } else {
      NoPermitNoStep(start, run[..|run| - 1]);
    }
  }

  // ---- an account listed twice ----

  ghost predicate Leads(s: System, run: seq<Action>, t: System) {
    Runs.Run(TaskStep, s, run) == Some(t)
  }

  lemma Extend(s: System, run: seq<Action>, t: System, a: Action, u: System)
    requires Leads(s, run, t) && TaskStep(t, a) == Some(u)
    ensures Leads(s, run + [a], u)
  {
    Runs.RunOne(TaskStep, s, run, a);
  }

  lemma Join(s: System, first: seq<Action>, t: System, second: seq<Action>, u: System)
    requires Leads(s, first, t) && Leads(t, second, u)
    ensures Leads(s, first + second, u)
  {
    Runs.RunConcat(TaskStep, s, first, second);
  }

  // One task run from the semaphore to its return while all others wait.
  lemma FinishOne(s: System, k: nat, outcome: Option<nat>) returns (run: seq<Action>, t: System)
    requires k < |s.tasks| == |s.ids| && s.tasks[k] == AtSemaphore && s.permits >= 1
    ensures Leads(s, run, t) && t.ids == s.ids && t.permits == s.permits
    ensures t.tasks == s.tasks[k := Done(Row(s.ids[k], outcome))]
    ensures t.clients == if outcome.Some? then s.clients[s.ids[k] := outcome.value] else s.clients - {s.ids[k]}
    ensures t.statuses == s.statuses[s.ids[k] := if outcome.Some? then Active else Error]
  {
    var go, id := Go(k, None), s.ids[k];
    var a := Moved(s, k, Popping).(permits := s.permits - 1);
    var b := Moved(a, k, Trying).(clients := a.clients - {id});
    assert Leads(s, [], s);
    Extend(s, [], s, go, a);
    Extend(s, [] + [go], a, go, b);
    var late, c := TryAlone(b, k, outcome);
    Join(s, [] + [go] + [go], b, late, c);
    t := Moved(c, k, Done(Row(id, outcome))).(permits := s.permits);
    run := ([] + [go] + [go]) + late;
    Extend(s, run, c, go, t);
    run := run + [go];
    hide TaskStep, Leads;
  }

  lemma TryAlone(s: System, k: nat, outcome: Option<nat>) returns (run: seq<Action>, t: System)
    requires k < |s.tasks| == |s.ids| && s.tasks[k] == Trying && s.ids[k] !in s.clients
    ensures Leads(s, run, t) && t.ids == s.ids && t.permits == s.permits
    ensures t.tasks == s.tasks[k := Releasing(Row(s.ids[k], outcome))]
    ensures t.clients == if outcome.Some? then s.clients[s.ids[k] := outcome.value] else s.clients
    ensures t.statuses == s.statuses[s.ids[k] := if outcome.Some? then Active else Error]
  {
    var go, id, row := Go(k, None), s.ids[k], Row(s.ids[k], outcome);
    run, t := [] + [Go(k, outcome)], Moved(s, k, if outcome.Some? then Installing(outcome.value) else Failing);
    assert Leads(s, [], s);
    Extend(s, [], s, Go(k, outcome), t);
    if outcome.Some? {
      var u := Moved(t, k, Activating(outcome.value)).(clients := t.clients[id := outcome.value]);
      Extend(s, run, t, go, u);
      run, t := run + [go], u;
    }
    var v := Moved(t, k, Releasing(row)).(statuses := t.statuses[id := if outcome.Some? then Active else Error]);
    Extend(s, run, t, go, v);
    run, t := run + [go], v;
  }

  // A task that nobody interferes with does to the clients exactly what a single relogin does, and
  // the same to the statuses except that it tracks a ValueError like any other failure.
  lemma TaskAloneIsRelogin(s: System, k: nat, r: Registry, strategy: Strategy) returns (run: seq<Action>, t: System)
    requires k < |s.tasks| == |s.ids| && s.tasks[k] == AtSemaphore && s.permits >= 1
    requires r.clients == s.clients && r.statuses == s.statuses && strategy.worlds != []
    ensures Leads(s, run, t) && t.tasks == s.tasks[k := Done(Row(s.ids[k], TriesOf(r, strategy).client))]
    ensures var id, client := s.ids[k], TriesOf(r, strategy).client;
      var single := ReloginResult(r, id, strategy).registry;
      && t.clients == single.clients
      && t.statuses == single.statuses[id := if client.Some? then Active else Error]
    ensures t.statuses == ReloginResult(r, s.ids[k], strategy).registry.statuses
       <==> (TriesOf(r, strategy).client.Some? || !strategy.valueError
             || (s.ids[k] in s.statuses && s.statuses[s.ids[k]] == Error))
  {
    run, t := FinishOne(s, k, TriesOf(r, strategy).client);
    RelogsAre(r, s.ids[k], strategy);
    hide TriesOf, ReloginResult;
  }

  lemma RelogsAre(r: Registry, id: string, strategy: Strategy)
    requires strategy.worlds != []
    ensures var client, single := TriesOf(r, strategy).client, ReloginResult(r, id, strategy).registry;
      && single.clients == (if client.Some? then r.clients[id := client.value] else r.clients - {id})
      && single.statuses == if client.Some? then r.statuses[id := Active]
                            else if strategy.valueError then r.statuses else r.statuses[id := Error]
  {
    hide TriesOf, Relogged, Retrying.Reports;
    var calls := TriesOf(r, strategy).calls;
    ReloggedIs(r, id, Retrying.Reports(strategy.worlds, strategy.verify, r.next)[..calls], TriesOf(r, strategy).client);
  }

  // Every task but `i` and `j` run to its return, one after the other.
  lemma FinishOthers(s: System, n: nat, i: nat, j: nat) returns (run: seq<Action>, t: System)
    requires n <= |s.tasks| == |s.ids| && s.permits >= 1
    requires forall k :: 0 <= k < |s.tasks| ==> s.tasks[k] == AtSemaphore
    ensures Leads(s, run, t) && t.ids == s.ids && t.permits == s.permits && |t.tasks| == |s.tasks|
    ensures forall k :: 0 <= k < |t.tasks| ==>
              if k < n && k != i && k != j then t.tasks[k].Done? else t.tasks[k] == AtSemaphore
  {
    run, t := [], s;
    if n == 0 {
    } else {
      run, t := FinishOthers(s, n - 1, i, j);
      if n - 1 != i && n - 1 != j {
        var last, u := FinishOne(t, n - 1, None);
        Join(s, run, t, last, u);
        run, t := run + last, u;
      }
    }
  }

  lemma FourSteps(s: System, a: Action, s1: System, b: Action, s2: System, c: Action, s3: System, d: Action, s4: System)
    returns (run: seq<Action>)
    requires TaskStep(s, a) == Some(s1) && TaskStep(s1, b) == Some(s2)
    requires TaskStep(s2, c) == Some(s3) && TaskStep(s3, d) == Some(s4)
    ensures Leads(s, run, s4)
  {
    hide TaskStep;
    assert Leads(s, [], s);
    Extend(s, [], s, a, s1);
    Extend(s, [] + [a], s1, b, s2);
    Extend(s, [] + [a] + [b], s2, c, s3);
    Extend(s, [] + [a] + [b] + [c], s3, d, s4);
    run := [] + [a] + [b] + [c] + [d];
  }

  // Tasks `i` and `j` of the same account, and where they are.
  ghost predicate Pair(s: System, i: nat, j: nat, atI: Task, atJ: Task) {
    && i != j && i < |s.tasks| == |s.ids| && j < |s.tasks| && s.ids[i] == s.ids[j]
    && s.tasks[i] == atI && s.tasks[j] == atJ
  }

  ghost predicate OthersStay(s: System, t: System, i: nat, j: nat) {
    && |t.tasks| == |s.tasks| && t.ids == s.ids
    && forall k :: 0 <= k < |s.tasks| && k != i && k != j ==> t.tasks[k] == s.tasks[k]
  }

  lemma BothDropTheClient(s: System, i: nat, j: nat) returns (run: seq<Action>, t: System)
    requires Pair(s, i, j, AtSemaphore, AtSemaphore) && s.permits >= 2
    ensures Leads(s, run, t) && OthersStay(s, t, i, j) && Pair(t, i, j, Trying, Trying)
  {
    var s1 := Moved(s, i, Popping).(permits := s.permits - 1);
    var s2 := Moved(s1, j, Popping).(permits := s1.permits - 1);
    var s3 := Moved(s2, i, Trying).(clients := s2.clients - {s.ids[i]});
    t := Moved(s3, j, Trying).(clients := s3.clients - {s.ids[i]});
    run := FourSteps(s, Go(i, None), s1, Go(j, None), s2, Go(i, None), s3, Go(j, None), t);
  }

  lemma OneSucceedsOneFails(s: System, i: nat, j: nat, client: nat) returns (run: seq<Action>, t: System)
    requires Pair(s, i, j, Trying, Trying)
    ensures Leads(s, run, t) && OthersStay(s, t, i, j) && s.ids[i] in t.clients
    ensures Pair(t, i, j, Releasing(Row(s.ids[i], Some(client))), Failing)
  {
    var s1 := Moved(s, j, Failing);
    var s2 := Moved(s1, i, Installing(client));
    var s3 := Moved(s2, i, Activating(client)).(clients := s2.clients[s.ids[i] := client]);
    t := Moved(s3, i, Releasing(Row(s.ids[i], Some(client)))).(statuses := s3.statuses[s.ids[i] := Active]);
    run := FourSteps(s, Go(j, None), s1, Go(i, Some(client)), s2, Go(i, None), s3, Go(i, None), t);
  }

  lemma TheFailureSpeaksLast(s: System, i: nat, j: nat, row: Row) returns (run: seq<Action>, t: System)
    requires Pair(s, i, j, Releasing(row), Failing) && s.ids[i] in s.clients
    ensures Leads(s, run, t) && OthersStay(s, t, i, j) && !Settled(t, s.ids[i])
    ensures exists other :: Pair(t, i, j, Done(row), Done(other))
  {
    var other := Row(s.ids[j], None);
    var s1 := Moved(s, j, Releasing(other)).(statuses := s.statuses[s.ids[j] := Error]);
    var s2 := Moved(s1, i, Done(row)).(permits := s1.permits + 1);
    t := Moved(s2, j, Done(other)).(permits := s2.permits + 1);
    assert Leads(s, [], s);
    Extend(s, [], s, Go(j, None), s1);
    Extend(s, [] + [Go(j, None)], s1, Go(i, None), s2);
    Extend(s, [] + [Go(j, None)] + [Go(i, None)], s2, Go(j, None), t);
    run := [] + [Go(j, None)] + [Go(i, None)] + [Go(j, None)];
    assert Pair(t, i, j, Done(row), Done(other));
  }

  // Both tasks drop the old client; `j` fails, `i` installs its client and says "active", and then
  // `j` says "error".
  lemma Collide(s: System, i: nat, j: nat, client: nat) returns (run: seq<Action>, t: System)
    requires Pair(s, i, j, AtSemaphore, AtSemaphore) && s.permits >= 2
    ensures Leads(s, run, t) && !Settled(t, s.ids[i]) && OthersStay(s, t, i, j)
    ensures t.tasks[i].Done? && t.tasks[j].Done?
  {
    hide Leads, Settled;
    var first, s1 := BothDropTheClient(s, i, j);
    var second, s2 := OneSucceedsOneFails(s1, i, j, client);
    var third, s3 := TheFailureSpeaksLast(s2, i, j, s2.tasks[i].row);
    Join(s, first, s1, second, s2);
    Join(s, first + second, s2, third, s3);
    run, t := (first + second) + third, s3;
  }

  // As soon as two tasks can run at once, listing an account twice lets a bulk relogin end with a
  // client on an account whose status is "error".
  lemma DuplicatesCanUnsettle(start: System, concurrency: nat, i: nat, j: nat, client: nat)
    returns (run: seq<Action>, end: System)
    requires start == Start(start.ids, start.clients, start.statuses, concurrency)
    requires i < j < |start.ids| && start.ids[i] == start.ids[j] && concurrency >= 2
    ensures Runs.Run(TaskStep, start, run) == Some(end) && Finished(end) && !Settled(end, start.ids[i])
  {
    var first, s := FinishOthers(start, |start.tasks|, i, j);
    var second, t := Collide(s, i, j, client);
    Join(start, first, s, second, t);
    run, end := first + second, t;
  }

  // So a listed account is left settled by every finished run exactly if the ids are distinct or
  // relogins happen one at a time.
  lemma BulkReloginSettlesExactly(start: System, concurrency: nat)
    requires start == Start(start.ids, start.clients, start.statuses, concurrency)
    ensures (forall run, id | Runs.Run(TaskStep, start, run).Some? && id in start.ids ::
               Finished(Runs.Run(TaskStep, start, run).value) ==> Settled(Runs.Run(TaskStep, start, run).value, id))
       <==> Distinct(start.ids) || concurrency <= 1
  {
    if Distinct(start.ids) || concurrency <= 1 {
      forall run, id | Runs.Run(TaskStep, start, run).Some? && Finished(Runs.Run(TaskStep, start, run).value)
          && id in start.ids
        ensures Settled(Runs.Run(TaskStep, start, run).value, id)
      {
        BulkReloginSettles(start, concurrency, run);
      }
    } else {
      var i, j :| 0 <= i < j < |start.ids| && start.ids[i] == start.ids[j];
      var run, end := DuplicatesCanUnsettle(start, concurrency, i, j, 0);
      assert start.ids[i] in start.ids;
    }
  }

  // ---- the tasks as they run ----

  class BulkRun {
    const ids: seq<string>
    var clients: map<string, nat>
    var statuses: map<string, Status>
    var permits: nat
    var tasks: seq<Task>

    ghost function View(): System
      reads this
    {
      System(ids, clients, statuses, permits, tasks)
    }

    constructor (ids: seq<string>, concurrency: nat, clients: map<string, nat>, statuses: map<string, Status>)
      ensures View() == Start(ids, clients, statuses, concurrency)
    {
      this.ids := ids;
      this.clients := clients;
      this.statuses := statuses;
      permits := concurrency;
      tasks := seq(|ids|, _ => AtSemaphore);
    }

    // `async with semaphore`; false: the task still waits.
    method Acquire(i: nat) returns (acquired: bool)
      requires i < |tasks| == |ids| && tasks[i].AtSemaphore?
      modifies this
      ensures acquired <==> old(permits) > 0
      ensures var next := TaskStep(old(View()), Go(i, None));
              if acquired then next == Some(View()) else next == None && View() == old(View())
    {
      if permits == 0 {
        return false;
      }
      permits := permits - 1;
      tasks := tasks[i := Popping];
      return true;
    }

    // relogin_account_sync in its thread, up to the next point at which others may interfere.
    method ReloginInThread(i: nat, outcome: Option<nat>)
      requires i < |tasks| == |ids|
      requires tasks[i].Popping? || tasks[i].Trying? || tasks[i].Installing? || tasks[i].Activating?
      modifies this
      ensures TaskStep(old(View()), Go(i, outcome)) == Some(View())
    {
      var id := ids[i];
      match tasks[i] {
        case Popping =>
          clients := clients - {id};
          tasks := tasks[i := Trying];
        case Trying =>
          tasks := tasks[i := if outcome.Some? then Installing(outcome.value) else Failing];
        case Installing(client) =>
          clients := clients[id := client];
          tasks := tasks[i := Activating(client)];
        case Activating(client) =>
          statuses := statuses[id := Active];
          tasks := tasks[i := Releasing(Row(id, Some(client)))];
      }
    }

    // The handler of the task's exception: track_relogin_failure, and the error row.
    method HandleFailure(i: nat)
      requires i < |tasks| == |ids| && tasks[i].Failing?
      modifies this
      ensures TaskStep(old(View()), Go(i, None)) == Some(View())
    {
      statuses := statuses[ids[i] := Error];
      tasks := tasks[i := Releasing(Row(ids[i], None))];
    }

    // Leaving `async with`, and returning.
    method Release(i: nat) returns (row: Row)
      requires i < |tasks| == |ids| && tasks[i].Releasing?
      modifies this
      ensures TaskStep(old(View()), Go(i, None)) == Some(View()) && tasks[i] == Done(row)
    {
      row := tasks[i].row;
      permits := permits + 1;
      tasks := tasks[i := Done(row)];
    }

    // asyncio.gather, once every task has returned.
    method Gather() returns (rows: seq<Row>)
      requires Finished(View())
      ensures |rows| == |tasks| && forall i :: 0 <= i < |rows| ==> tasks[i] == Done(rows[i])
    {
      rows := [];
      for i := 0 to |tasks|
        invariant |rows| == i && forall k :: 0 <= k < i ==> tasks[k] == Done(rows[k])
      {
        rows := rows + [tasks[i].row];
      }
    }
  }
}
