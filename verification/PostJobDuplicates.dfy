// `create_post_job` does not remove repeated accounts, and `update_result` writes the first row
// of an account.  What the tally then accounts for, in every interleaving.
module PostJobDuplicates {
  import opened Options
  import opened Runs
  import opened JobStore
  import opened PostJobEngine
  import opened PostJobSafety
  import opened PostJobControl
  import opened PostJobLifecycle
  import opened PostJobWaiting

  predicate Midway(pc: Pc) {
    pc.Dispatch? || pc.AwaitUpload? || pc.WriteTimedOut? || pc.WriteFailed? || pc.WriteSuccess?
  }

  predicate Leads(rows: seq<Row>, k: nat)
    requires k < |rows|
  {
    FirstOf(rows, rows[k].accountId) == k
  }

  ghost function Leaders(rows: seq<Row>): set<nat> {
    set k: nat | k < |rows| && Leads(rows, k)
  }

  // A repeated row keeps what it started with; the first row of an account is terminal, or on the
  // way to it, as soon as one of the account's workers has written.
  ghost predicate RowFits(start: seq<Row>, s: System, k: nat)
    requires k < |Rows(s)| == |start| && |s.ids| == |s.workers|
  {
    if !Leads(Rows(s), k) then StatusOf(s, k) == start[k].status
    else
      || Terminal(StatusOf(s, k))
      || AllUntouched(s, Rows(s)[k].accountId)
      || SomeMidway(s, Rows(s)[k].accountId)
  }

  ghost predicate AllUntouched(s: System, account: string)
    requires |s.ids| == |s.workers|
  {
    forall i :: 0 <= i < |s.ids| && s.ids[i] == account ==> Untouched(s.workers[i].pc)
  }

  ghost predicate SomeMidway(s: System, account: string)
    requires |s.ids| == |s.workers|
  {
    exists i :: 0 <= i < |s.ids| && s.ids[i] == account && Midway(s.workers[i].pc)
  }

  ghost predicate Grouped(start: seq<Row>, s: System) {
    && Shaped(s) && |Rows(s)| == |start|
    && (forall k :: 0 <= k < |start| ==> Rows(s)[k].accountId == start[k].accountId)
    && forall k :: 0 <= k < |start| ==> RowFits(start, s, k)
  }

  lemma SameIdsSameLeaders(rows: seq<Row>, others: seq<Row>)
    requires |rows| == |others|
    requires forall k :: 0 <= k < |rows| ==> rows[k].accountId == others[k].accountId
    ensures forall id :: FirstOf(rows, id) == FirstOf(others, id)
    ensures Leaders(rows) == Leaders(others)
  {
    forall id ensures FirstOf(rows, id) == FirstOf(others, id) {
      var a, b := FirstOf(rows, id), FirstOf(others, id);
      assert a < |rows| ==> rows[a].accountId == others[a].accountId;
      assert b < |rows| ==> rows[b].accountId == others[b].accountId;
    }
  }

  lemma WorkerMoves(s: System, pc: Pc, c: Choice, next: Pc)
    requires AfterPc(pc, s, c) == Some(next)
    ensures match WritesAt(pc)
            case None => (Untouched(pc) ==> Untouched(next)) && (Midway(pc) ==> Midway(next))
            case Some(st) => st == Uploading || Terminal(st)
    ensures WritesAt(pc) == Some(Uploading) ==> Midway(next)
  {
  }

  lemma WorkKeepsRowFits(start: seq<Row>, s: System, i: nat, c: Choice, t: System, k: nat)
    requires Grouped(start, s) && Shaped(t) && Step(s, Work(i, c)) == Some(t)
    requires k < |start| == |Rows(t)| && |t.ids| == |t.workers|
    ensures RowFits(start, t, k)
  {
    WorkEffect(s, i, c, t);
    WorkWritesLeader(s, i, c, t);
    var pc := s.workers[i].pc;
    WorkerMoves(s, pc, c, AfterPc(pc, s, c).value);
    hide Step, AfterPc, WritesAt, Shaped, Untouched, Midway, Terminal;
    SameIdsSameLeaders(Rows(s), Rows(t));
    assert RowFits(start, s, k);
    assert Leads(Rows(t), k) <==> Leads(Rows(s), k);
    if !Leads(Rows(s), k) {
    } else if k == FirstOf(Rows(s), s.ids[i]) && WritesAt(pc).Some? {
      hide AllUntouched;
      assert StatusOf(t, k) == Uploading ==> SomeMidway(t, Rows(t)[k].accountId) by {
        assert StatusOf(t, k) == Uploading ==> Midway(t.workers[i].pc);
      }
    } else {
      StaysOnTheWay(s, i, t, Rows(s)[k].accountId, WritesAt(pc) == None);
      hide AllUntouched, SomeMidway;
    }
  }

  lemma StaysOnTheWay(s: System, i: nat, t: System, account: string, quiet: bool)
    requires i < |s.ids| == |s.workers| && t.ids == s.ids && |t.workers| == |s.workers|
    requires t.workers == s.workers[i := t.workers[i]] && (s.ids[i] == account ==> quiet)
    requires quiet ==>
      && (Untouched(s.workers[i].pc) ==> Untouched(t.workers[i].pc))
      && (Midway(s.workers[i].pc) ==> Midway(t.workers[i].pc))
    ensures AllUntouched(s, account) ==> AllUntouched(t, account)
    ensures SomeMidway(s, account) ==> SomeMidway(t, account)
  {
    hide Untouched, Midway;
    if SomeMidway(s, account) {
      var j :| 0 <= j < |s.ids| && s.ids[j] == account && Midway(s.workers[j].pc);
      assert Midway(t.workers[j].pc);
    }
  }

  lemma StepKeepsGrouped(start: seq<Row>, s: System, a: Action, t: System)
    requires Grouped(start, s) && Step(s, a) == Some(t)
    ensures Grouped(start, t)
  {
    StepKeepsShaped(s, a, t);
    if a.Work? {
      WorkWritesLeader(s, a.i, a.choice, t);
      hide Step;
      forall k | 0 <= k < |Rows(t)| ensures RowFits(start, t, k) {
        WorkKeepsRowFits(start, s, a.i, a.choice, t, k);
      }
    } else {
      if a.Join? {
        JoinKeepsSound(s, t);
      } else {
        OthersLeaveRows(s, a, t);
      }
      hide Step, Shaped;
      forall k | 0 <= k < |Rows(t)| ensures RowFits(start, t, k) {
        assert RowFits(start, s, k);
        OthersKeepRowFits(start, s, t, k);
      }
    }
  }

  lemma OthersKeepRowFits(start: seq<Row>, s: System, t: System, k: nat)
    requires Rows(t) == Rows(s) && t.ids == s.ids && |t.workers| == |s.workers| == |s.ids|
    requires k < |Rows(s)| == |start| && RowFits(start, s, k)
    requires forall i :: 0 <= i < |s.workers| ==>
      t.workers[i] == s.workers[i]
      || (s.workers[i].pc.Blocked? && t.workers[i] == s.workers[i].(pc := SecondCheck))
    ensures RowFits(start, t, k)
  {
    if SomeMidway(s, Rows(s)[k].accountId) {
      var j :| 0 <= j < |s.ids| && s.ids[j] == Rows(s)[k].accountId && Midway(s.workers[j].pc);
      assert Midway(t.workers[j].pc);
    }
  }

  lemma {:induction false} RunKeepsGrouped(start: seq<Row>, s: System, run: seq<Action>, t: System)
    requires Grouped(start, s) && Run(Step, s, run) == Some(t)
    ensures Grouped(start, t)
  {
    hide Step, Grouped;
    if run == [] {
    } else {
      var u := Run(Step, s, run[..|run| - 1]).value;
      RunKeepsGrouped(start, s, run[..|run| - 1], u);
      StepKeepsGrouped(start, u, run[|run| - 1], t);
    }
  }

  // The rows the tally accounts for, as the rows stood at the start: the first of each account, and
  // the repeated ones that were terminal already.
  ghost function Counting(rows: seq<Row>): set<nat> {
    set k: nat | k < |rows| && (Leads(rows, k) || Terminal(rows[k].status))
  }

  lemma LeadersAllIffDistinct(rows: seq<Row>)
    ensures |Leaders(rows)| == |rows| <==> DistinctIds(rows)
  {
    assert Leaders(rows) <= Below(|rows|);
    if DistinctIds(rows) {
      forall k | 0 <= k < |rows| ensures k in Leaders(rows) {
        FirstOfDistinct(rows, k);
      }
      assert Leaders(rows) == Below(|rows|);
    } else {
      var i, j :| 0 <= i < j < |rows| && rows[i].accountId == rows[j].accountId;
      assert j !in Leaders(rows);
      SubsetSize(Leaders(rows), Below(|rows|) - {j});
    }
  }

  lemma LaunchedIsGrouped(s: System, threshold: int, timeout: real)
    requires Launched(s, threshold, timeout)
    ensures Grouped(Rows(s), s) && |Rows(s)| == |s.ids|
  {
    assert Shaped(s);
    hide Step, Shaped;
    assert forall k :: 0 <= k < |Rows(s)| ==> RowFits(Rows(s), s, k);
  }

  lemma LeadersAreTerminal(start: seq<Row>, t: System)
    requires Grouped(start, t) && t.runner != Joining
    ensures TerminalRows(Rows(t)) == Counting(start)
  {
    assert AllFinished(t);
    SameIdsSameLeaders(start, Rows(t));
    forall k | 0 <= k < |Rows(t)|
      ensures Terminal(Rows(t)[k].status) == (Leads(start, k) || Terminal(start[k].status))
    {
      assert RowFits(start, t, k);
      assert StatusOf(t, k) == Rows(t)[k].status;
      if Leads(Rows(t), k) {
        assert t.ids[k] == Rows(t)[k].accountId;
      }
    }
  }

  lemma CountingAllExactly(rows: seq<Row>)
    ensures |Counting(rows)| == |rows|
       <==> forall k: nat :: k < |rows| ==> Leads(rows, k) || Terminal(rows[k].status)
  {
    assert Counting(rows) <= Below(|rows|);
    if forall k: nat :: k < |rows| ==> Leads(rows, k) || Terminal(rows[k].status) {
      assert Counting(rows) == Below(|rows|);
    } else {
      var j: nat :| j < |rows| && !Leads(rows, j) && !Terminal(rows[j].status);
      SubsetSize(Counting(rows), Below(|rows|) - {j});
    }
  }

  // Whatever the rows hold at the start and whatever the interleaving, the tally accounts for the
  // first row of each account and the repeated rows that were terminal already: for all rows exactly
  // when no other row is repeated.
  lemma TallyCountsAccounts(threshold: int, timeout: real, s: System, run: seq<Action>, t: System)
    requires Launched(s, threshold, timeout)
    requires Run(Step, s, run) == Some(t) && t.runner != Joining
    ensures |Rows(s)| == |s.ids|
    ensures var tally := TallyOf(Rows(t)); tally.success + tally.failed + tally.skipped == |Counting(Rows(s))|
    ensures |Counting(Rows(s))| == |s.ids|
       <==> forall k: nat :: k < |s.ids| ==> Leads(Rows(s), k) || Terminal(Rows(s)[k].status)
  {
    LaunchedIsGrouped(s, threshold, timeout);
    RunKeepsGrouped(Rows(s), s, run, t);
    hide Step, Launched, Grouped, Counting, TallyOf, Run;
    LeadersAreTerminal(Rows(s), t);
    TallyCountsTerminalRows(Rows(t));
    CountingAllExactly(Rows(s));
  }

  // For a job that was never run before: as many as it has accounts, and so all rows exactly when
  // no account is repeated.
  lemma FreshTallyCountsAccounts(threshold: int, timeout: real, s: System, run: seq<Action>, t: System)
    requires Launched(s, threshold, timeout) && AllAre(Rows(s), Pending)
    requires Run(Step, s, run) == Some(t) && t.runner != Joining
    ensures var tally := TallyOf(Rows(t));
            && tally.success + tally.failed + tally.skipped == |Leaders(Rows(s))|
            && (tally.success + tally.failed + tally.skipped == |s.ids| <==> DistinctIds(Rows(s)))
  {
    TallyCountsAccounts(threshold, timeout, s, run, t);
    hide Run, Launched, TallyOf;
    assert Counting(Rows(s)) == Leaders(Rows(s));
    LeadersAllIffDistinct(Rows(s));
  }

  // The final status of such a job: completed exactly if every row that the tally accounts for has
  // succeeded; this means that all rows have exactly if the tally accounts for all.
  lemma CompletedExactly(threshold: int, timeout: real, s: System, run: seq<Action>, t: System)
    requires Launched(s, threshold, timeout) && Run(Step, s, run) == Some(t) && t.runner.Closed?
    ensures |Rows(t)| == |Rows(s)|
    ensures t.runner.final == JobCompleted
       <==> forall k: nat :: k < |Rows(s)| && k in Counting(Rows(s)) ==> StatusOf(t, k) == Success
    ensures t.runner.final == JobCompleted ==>
      (AllAre(Rows(t), Success) <==> |Counting(Rows(s))| == |Rows(s)|)
  {
    LaunchedIsGrouped(s, threshold, timeout);
    RunKeepsGrouped(Rows(s), s, run, t);
    assert t.runner.final == FinalStatus(TallyOf(Rows(t))) by { hide Step, Launched, Run; }
    hide Step, Launched, Run, Counting, TallyOf;
    LeadersAreTerminal(Rows(s), t);
    CountingAllExactly(Rows(s));
    assert |Rows(t)| == |Rows(s)|;
    hide Grouped;
    CompletedMeans(t, Counting(Rows(s)));
    CountingIsBounded(Rows(s));
    if t.runner.final == JobCompleted {
      AllSucceededExactly(t, Counting(Rows(s)));
    }
  }

  lemma AllSucceededExactly(t: System, counted: set<nat>)
    requires counted == TerminalRows(Rows(t)) && counted <= Below(|Rows(t)|)
    requires forall k: nat :: k < |Rows(t)| && k in counted ==> StatusOf(t, k) == Success
    ensures AllAre(Rows(t), Success) <==> |counted| == |Rows(t)|
  {
    assert forall k: nat :: k < |Rows(t)| ==> StatusOf(t, k) == Rows(t)[k].status;
    if AllAre(Rows(t), Success) {
      assert counted == Below(|Rows(t)|);
    }
    if |counted| == |Rows(t)| {
      SubsetOfSameSize(counted, Below(|Rows(t)|));
    }
  }

  lemma CountingIsBounded(rows: seq<Row>)
    ensures Counting(rows) <= Below(|rows|)
  {
  }

  lemma SubsetOfSameSize(a: set<nat>, b: set<nat>)
    requires a <= b && |a| == |b|
    ensures a == b
  {
    if a != b {
      var x :| x in b && x !in a;
      SubsetSize(a, b - {x});
    }
  }

  lemma CompletedMeans(t: System, counted: set<nat>)
    requires counted == TerminalRows(Rows(t))
    ensures FinalStatus(TallyOf(Rows(t))) == JobCompleted
       <==> forall k: nat :: k < |Rows(t)| && k in counted ==> StatusOf(t, k) == Success
  {
    var rows := Rows(t);
    NoneAre(rows, Failed);
    NoneAre(rows, Skipped);
    assert forall k: nat :: k < |rows| ==> (k in counted <==> Terminal(StatusOf(t, k)));
    assert forall k: nat :: k < |rows| ==> StatusOf(t, k) == rows[k].status;
    assert TallyOf(rows).failed == |WithStatus(rows, Failed)| && TallyOf(rows).skipped == |WithStatus(rows, Skipped)|;
    hide TallyOf, WithStatus, TerminalRows;
  }

  // ---- one row among repeated accounts ----

  // No other worker has this one's account.
  predicate Alone(s: System, k: nat)
    requires k < |s.ids|
  {
    forall i :: 0 <= i < |s.ids| && s.ids[i] == s.ids[k] ==> i == k
  }

  // Why a row follows the lifecycle: nobody writes it; or all its workers will skip; or its only
  // worker finds it in order.
  ghost predicate InOrder(s: System, k: nat)
    requires k < |s.ids| && k < |s.workers| && k < |Rows(s)| && |s.ids| == |s.workers|
  {
    || !Leads(Rows(s), k)
    || ((StatusOf(s, k) == Pending || StatusOf(s, k) == Skipped)
        && forall i :: 0 <= i < |s.ids| && s.ids[i] == s.ids[k] ==> Barred(s, i))
    || (Alone(s, k) && Fits(StatusOf(s, k), s.workers[k]) && Orderly(s, k))
  }

  lemma BarredOnlySkips(s: System, i: nat, c: Choice, t: System)
    requires Step(s, Work(i, c)) == Some(t) && i < |s.workers| && Barred(s, i)
    ensures WritesAt(s.workers[i].pc).Some? ==> WritesAt(s.workers[i].pc).value == Skipped
  {
  }

  lemma WorkKeepsInOrder(s: System, i: nat, c: Choice, t: System, k: nat)
    requires Shaped(s) && Step(s, Work(i, c)) == Some(t) && k < |s.ids| && InOrder(s, k)
    ensures Shaped(t) && t.ids == s.ids && |t.workers| == |s.workers|
    ensures Edge(StatusOf(s, k), StatusOf(t, k)) && InOrder(t, k)
  {
    StepKeepsShaped(s, Work(i, c), t);
    WorkWritesLeader(s, i, c, t);
    SameIdsSameLeaders(Rows(s), Rows(t));
    assert Rows(s)[k].accountId == s.ids[k] && Rows(s)[i].accountId == s.ids[i];
    if !Leads(Rows(s), k) {
      hide Step, Shaped, WritesAt, Fits, Orderly;
    } else if Alone(s, k) && Fits(StatusOf(s, k), s.workers[k]) && Orderly(s, k) {
      WorkEffect(s, i, c, t);
      assert t.store.StopRequested(t.job) == s.store.StopRequested(s.job);
      if i == k {
        var next := AfterPc(s.workers[k].pc, s, c).value;
        WorkerFollowsEdge(StatusOf(s, k), s, s.workers[k], c, next);
        WorkerKeepsFit(StatusOf(s, k), s, s.workers[k], c, next);
      }
      hide Step, Shaped, Fits, OrderlyAt, AfterPc, Edge;
    } else {
      forall j | 0 <= j < |s.ids| && s.ids[j] == s.ids[k] ensures Barred(t, j) {
        BarredStaysBarred(s, Work(i, c), t, j);
      }
      if s.ids[i] == s.ids[k] {
        BarredOnlySkips(s, i, c, t);
      }
      hide Step, Shaped, Barred, WritesAt, Fits;
    }
  }

  lemma OthersKeepInOrder(s: System, a: Action, t: System, k: nat)
    requires Shaped(s) && Step(s, a) == Some(t) && !a.Work? && k < |s.ids| && InOrder(s, k)
    ensures Shaped(t) && t.ids == s.ids && |t.workers| == |s.workers|
    ensures Edge(StatusOf(s, k), StatusOf(t, k)) && InOrder(t, k)
  {
    StepKeepsShaped(s, a, t);
    if s.store.StopRequested(s.job) {
      StopFlagStays(s, a, t);
    }
    if a.Join? {
      JoinKeepsSound(s, t);
    } else {
      OthersLeaveRows(s, a, t);
    }
    forall j | 0 <= j < |s.workers| && Barred(s, j) ensures Barred(t, j) {
      BarredStaysBarred(s, a, t, j);
    }
    hide Step, Barred, RunnerFits, WaitsSoundly;
  }

  lemma {:induction false} RunKeepsInOrder(s: System, run: seq<Action>, n: nat, k: nat)
    requires Shaped(s) && Run(Step, s, run).Some? && n <= |run| && k < |s.ids| && InOrder(s, k)
    ensures var t := At(Step, s, run, n); Shaped(t) && t.ids == s.ids && InOrder(t, k)
    ensures n < |run| ==> EdgeAt(s, run, n, k)
  {
    hide Step, InOrder, RunnerFits, WaitsSoundly, Edge, Run;
    if n == 0 {
      AtStart(s, run);
    } else {
      RunKeepsInOrder(s, run, n - 1, k);
      AtSteps(Step, s, run, n - 1);
      InOrderStep(At(Step, s, run, n - 1), run[n - 1], At(Step, s, run, n), k);
    }
    if n < |run| {
      AtSteps(Step, s, run, n);
      InOrderStep(At(Step, s, run, n), run[n], At(Step, s, run, n + 1), k);
    }
  }

  lemma InOrderStep(s: System, a: Action, t: System, k: nat)
    requires Shaped(s) && Step(s, a) == Some(t) && k < |s.ids| && InOrder(s, k)
    ensures Shaped(t) && t.ids == s.ids && |t.workers| == |s.workers|
    ensures Edge(StatusOf(s, k), StatusOf(t, k)) && InOrder(t, k)
  {
    hide *;
    if a.Work? {
      WorkKeepsInOrder(s, a.i, a.choice, t, k);
    } else {
      OthersKeepInOrder(s, a, t, k);
    }
  }

  // Repeated accounts or not, a row follows the lifecycle in every interleaving exactly if it is a
  // repetition, which nobody writes; or it is pending or `skipped` in a job stopped by the launch; or
  // it is pending and no other row has its account.
  lemma RowFollowsExactly(threshold: int, timeout: real, s: System, k: nat)
    requires Launched(s, threshold, timeout) && k < |s.ids| == |Rows(s)|
    ensures (forall run | Run(Step, s, run).Some? :: FollowsEdges(s, run, k))
       <==> (!Leads(Rows(s), k)
             || (s.store.StopRequested(s.job) && (StatusOf(s, k) == Pending || StatusOf(s, k) == Skipped))
             || (Alone(s, k) && StatusOf(s, k) == Pending))
  {
    assert Shaped(s) && forall i :: 0 <= i < |s.workers| ==> s.workers[i] == Worker(FirstCheck, false, None);
    hide Step, Launched, RunnerFits, WaitsSoundly;
    if !Leads(Rows(s), k) || (s.store.StopRequested(s.job) && (StatusOf(s, k) == Pending || StatusOf(s, k) == Skipped))
      || (Alone(s, k) && StatusOf(s, k) == Pending) {
      assert InOrder(s, k);
      forall run | Run(Step, s, run).Some? ensures FollowsEdges(s, run, k) {
        forall p: nat | p < |run| ensures EdgeAt(s, run, p, k) {
          RunKeepsInOrder(s, run, p, k);
        }
      }
    } else {
      var run, m := RowCanStray(s, k);
      if FollowsEdges(s, run, k) {
        EdgesMakePaths(s, run, m, |run|, k);
      }
    }
  }

  lemma RowCanStray(s: System, k: nat) returns (run: seq<Action>, m: nat)
    requires Shaped(s) && forall i :: 0 <= i < |s.workers| ==> s.workers[i] == Worker(FirstCheck, false, None)
    requires k < |s.ids| && Leads(Rows(s), k)
    requires s.store.StopRequested(s.job) ==> StatusOf(s, k) != Pending && StatusOf(s, k) != Skipped
    requires !Alone(s, k) || StatusOf(s, k) != Pending
    ensures Run(Step, s, run).Some? && m <= |run|
    ensures var u, t := At(Step, s, run, m), At(Step, s, run, |run|);
      k < |Rows(u)| && k < |Rows(t)| && !Path(StatusOf(u, k), StatusOf(t, k))
  {
    hide Step, RunnerFits, WaitsSoundly;
    assert Rows(s)[k].accountId == s.ids[k];
    m := 0;
    if StatusOf(s, k) == Pending || StatusOf(s, k) == Skipped {
      var first, u := CanArrive(s, k, false);
      RunKeepsShaped(s, first, u);
      ArrivedRow(s, first, u, k);
      if StatusOf(s, k) == Skipped {
        run := first;
        AtStart(s, run);
        AtEnd(s, run);
      } else {
        run, m := StopAfterFailure(s, first, u, k);
      }
    } else {
      var t;
      run, t := CanBeSkipped(s, k);
      AtStart(s, run);
      AtEnd(s, run);
    }
  }

  // Another worker of the account, stopped, overwrites the `failed` of the first with `skipped`.
  lemma StopAfterFailure(s: System, first: seq<Action>, u: System, k: nat) returns (run: seq<Action>, m: nat)
    requires Run(Step, s, first) == Some(u) && Shaped(u) && u.ids == s.ids && |u.workers| == |s.workers|
    requires k < |s.ids| == |s.workers| && !Alone(s, k)
    requires FirstOf(Rows(u), u.ids[k]) == k && k < |Rows(u)| && StatusOf(u, k) == Failed
    requires forall i :: 0 <= i < |s.workers| && i != k ==> u.workers[i].pc == FirstCheck
    ensures Run(Step, s, run).Some? && m <= |run|
    ensures var v, t := At(Step, s, run, m), At(Step, s, run, |run|);
      k < |Rows(v)| && k < |Rows(t)| && !Path(StatusOf(v, k), StatusOf(t, k))
  {
    hide Step, RunnerFits, WaitsSoundly, Path, Edge;
    var j :| 0 <= j < |s.ids| && s.ids[j] == s.ids[k] && j != k;
    var second, t := CanBeSkipped(u, j);
    RunConcat(Step, s, first, second);
    run, m := first + second, |first|;
    AtEnd(s, run);
    assert run[..m] == first;
    assert At(Step, s, run, m) == u;
    assert !Path(Failed, Skipped) by { FailedStays(); }
  }

  lemma FailedStays()
    ensures !Path(Failed, Skipped)
  {
  }

  lemma ArrivedRow(s: System, run: seq<Action>, t: System, k: nat)
    requires Shaped(s) && Shaped(t) && Run(Step, s, run) == Some(t) && t.ids == s.ids
    requires k < |s.ids| && Leads(Rows(s), k) && k < |t.workers| && Arrived(t, k, false)
    ensures Leads(Rows(t), k) && StatusOf(t, k) == Failed && FirstOf(Rows(t), t.ids[k]) == k
  {
    SameIdsSameLeaders(Rows(s), Rows(t));
    assert Rows(s)[k].accountId == s.ids[k] && Rows(t)[k].accountId == s.ids[k];
    hide Step;
  }
}
