// What the asynchronous breaker is after a run, told by the calls that ended in it: how many failures
// it counts, whether it is open, and which failure its recovery clock runs from.
module AsyncHistory {
  import opened Circuits
  import opened Options
  import opened Runs
  import opened AsyncBreaker

  // The call that ends at position `k` of a run, if one does.
  ghost function EndsAt(start: System, run: seq<Action>, k: nat): Option<Kind>
    requires k < |run|
  {
    match Run(Step, start, run[..k])
    case None => None
    case Some(s) =>
      if run[k].Finish? && run[k].call in s.inFlight then Some(s.inFlight[run[k].call]) else None
  }

  ghost predicate FailsAt(start: System, run: seq<Action>, k: nat) {
    k < |run| && EndsAt(start, run, k).Some? && run[k].outcome == Raised
  }

  ghost predicate SucceedsAt(start: System, run: seq<Action>, k: nat) {
    k < |run| && EndsAt(start, run, k).Some? && run[k].outcome == Returned
  }

  // A failure of a plain call that no later success of any call has wiped out.
  ghost predicate CountsAt(start: System, run: seq<Action>, k: nat) {
    && FailsAt(start, run, k) && EndsAt(start, run, k) == Some(Guarded)
    && forall j: nat :: k < j < |run| ==> !SucceedsAt(start, run, j)
  }

  ghost function Streak(start: System, run: seq<Action>): set<nat> {
    set k: nat | k < |run| && CountsAt(start, run, k)
  }

  // A failure that opens the circuit, or would if it were not open: a probe's, or the one with which
  // the failures counted reach the threshold.
  ghost predicate TripsAt(start: System, run: seq<Action>, k: nat) {
    && FailsAt(start, run, k)
    && (EndsAt(start, run, k) == Some(Probe) || |Streak(start, run[..k + 1])| >= start.breaker.threshold)
  }

  ghost predicate ProbeSucceedsAt(start: System, run: seq<Action>, k: nat) {
    SucceedsAt(start, run, k) && EndsAt(start, run, k) == Some(Probe)
  }

  ghost predicate LatestTrip(start: System, run: seq<Action>, k: nat) {
    TripsAt(start, run, k) && forall j: nat :: k < j < |run| ==> !ProbeSucceedsAt(start, run, j)
  }

  // Some failure has tripped the circuit, and no probe has succeeded since.
  ghost predicate IsOpen(start: System, run: seq<Action>) {
    exists k: nat :: LatestTrip(start, run, k)
  }

  ghost predicate LatestFailure(start: System, run: seq<Action>, k: nat) {
    FailsAt(start, run, k) && forall j: nat :: k < j < |run| ==> !FailsAt(start, run, j)
  }

  // The clock reading a failure leaves behind: that of its counting, or the second one if a plain
  // call's failure trips the circuit.
  ghost function ReadingAt(start: System, run: seq<Action>, k: nat): real
    requires FailsAt(start, run, k)
  {
    if EndsAt(start, run, k) == Some(Guarded) && TripsAt(start, run, k) then run[k].later else run[k].now
  }

  ghost predicate Clocked(start: System, run: seq<Action>, s: System, k: nat) {
    LatestFailure(start, run, k) && s.breaker.lastFailure == ReadingAt(start, run, k)
  }

  ghost predicate Told(start: System, run: seq<Action>, s: System) {
    && s.breaker.failures == |Streak(start, run)|
    && (s.breaker.state == Open <==> IsOpen(start, run))
    && ((exists k: nat :: FailsAt(start, run, k)) ==> exists k: nat :: Clocked(start, run, s, k))
  }

  // What happened before stays as it was.
  lemma PastStays(start: System, run: seq<Action>, n: nat)
    requires |run| == n + 1
    ensures forall k: nat :: k < n ==> EndsAt(start, run, k) == EndsAt(start, run[..n], k)
    ensures forall k: nat :: k < n ==> (FailsAt(start, run, k) <==> FailsAt(start, run[..n], k))
    ensures forall k: nat :: k < n ==> (SucceedsAt(start, run, k) <==> SucceedsAt(start, run[..n], k))
    ensures forall k: nat :: k < n ==> (TripsAt(start, run, k) <==> TripsAt(start, run[..n], k))
    ensures forall k: nat :: k < n ==> (ProbeSucceedsAt(start, run, k) <==> ProbeSucceedsAt(start, run[..n], k))
  {
    hide Step, Run, Streak;
    forall k: nat | k < n
      ensures EndsAt(start, run, k) == EndsAt(start, run[..n], k) && run[..n][..k + 1] == run[..k + 1]
    {
      assert run[..n][..k] == run[..k];
    }
  }

  lemma StreakAfter(start: System, run: seq<Action>, n: nat)
    requires |run| == n + 1
    ensures var before := Streak(start, run[..n]);
      Streak(start, run) == if SucceedsAt(start, run, n) then {}
                            else if FailsAt(start, run, n) && EndsAt(start, run, n) == Some(Guarded) then before + {n}
                            else before
    ensures n !in Streak(start, run[..n])
  {
    forall k: nat | k < n
      ensures CountsAt(start, run, k) <==> CountsAt(start, run[..n], k) && !SucceedsAt(start, run, n)
    {
      CountsBefore(start, run, n, k);
    }
    FailureIsNoSuccess(start, run, n);
    assert CountsAt(start, run, n) <==> FailsAt(start, run, n) && EndsAt(start, run, n) == Some(Guarded);
    hide CountsAt, SucceedsAt, FailsAt, EndsAt;
  }

  lemma CountsBefore(start: System, run: seq<Action>, n: nat, k: nat)
    requires |run| == n + 1 && k < n
    ensures CountsAt(start, run, k) <==> CountsAt(start, run[..n], k) && !SucceedsAt(start, run, n)
  {
    PastStays(start, run, n);
    hide EndsAt, FailsAt, SucceedsAt, TripsAt, ProbeSucceedsAt;
  }

  lemma FailureIsNoSuccess(start: System, run: seq<Action>, k: nat)
    ensures FailsAt(start, run, k) ==> !SucceedsAt(start, run, k)
  {
  }

  // One more action, in terms of how calls end.
  lemma StepTells(s: System, a: Action, t: System)
    requires Sound(s) && Step(s, a) == Some(t)
    ensures var kind := if a.Finish? && a.call in s.inFlight then Some(s.inFlight[a.call]) else None;
      var fails, succeeds := kind.Some? && a.outcome == Raised, kind.Some? && a.outcome == Returned;
      var b, d := s.breaker, t.breaker;
      && d.failures == (if succeeds then 0 else if fails && kind == Some(Guarded) then b.failures + 1 else b.failures)
      && (d.state == Open <==>
            if succeeds && kind == Some(Probe) then false
            else b.state == Open || (fails && (kind == Some(Probe) || d.failures >= b.threshold)))
      && d.lastFailure == (if !fails then b.lastFailure
                           else if kind == Some(Guarded) && d.failures >= b.threshold then a.later else a.now)
  {
  }

  lemma {:induction false} RunTells(threshold: int, timeout: real, run: seq<Action>, s: System)
    requires Run(Step, Idle(threshold, timeout), run) == Some(s)
    ensures Told(Idle(threshold, timeout), run, s)
  {
    var start := Idle(threshold, timeout);
    if run == [] {
      assert Streak(start, run) == {};
    } else {
      var n := |run| - 1;
      var before := Run(Step, start, run[..n]).value;
      RunTells(threshold, timeout, run[..n], before);
      RunsStaySound(threshold, timeout, run[..n], before);
      StepTells(before, run[n], s);
      LastStepTells(start, run, n, before, s);
    }
  }

  lemma LastStepTells(start: System, run: seq<Action>, n: nat, before: System, s: System)
    requires |run| == n + 1 && Run(Step, start, run[..n]) == Some(before) && Step(before, run[n]) == Some(s)
    requires Told(start, run[..n], before) && start.breaker.threshold == before.breaker.threshold
    requires Sound(before)
    ensures Told(start, run, s)
  {
    StepTells(before, run[n], s);
    StreakAfter(start, run, n);
    PastStays(start, run, n);
    assert run[..n + 1] == run;
    assert EndsAt(start, run, n)
        == if run[n].Finish? && run[n].call in before.inFlight then Some(before.inFlight[run[n].call]) else None;
    hide Step, Run, Streak, EndsAt, Sound;
    assert s.breaker.failures == |Streak(start, run)|;
    OpenAfter(start, run, n);
    ClockAfter(start, run, n, before, s);
  }

  lemma OpenAfter(start: System, run: seq<Action>, n: nat)
    requires |run| == n + 1
    ensures IsOpen(start, run)
       <==> if ProbeSucceedsAt(start, run, n) then false
            else IsOpen(start, run[..n]) || TripsAt(start, run, n)
  {
    PastStays(start, run, n);
    FailureIsNoSuccess(start, run, n);
    assert TripsAt(start, run, n) ==> FailsAt(start, run, n);
    assert ProbeSucceedsAt(start, run, n) ==> SucceedsAt(start, run, n);
    hide TripsAt, ProbeSucceedsAt, FailsAt, SucceedsAt;
    assert forall k: nat :: k >= |run| ==> !TripsAt(start, run, k) by { NoTripBeyond(start, run); }
    assert forall k: nat :: k >= n ==> !TripsAt(start, run[..n], k) by { NoTripBeyond(start, run[..n]); }
    if IsOpen(start, run) {
      var k: nat :| LatestTrip(start, run, k);
      if k < n {
        assert LatestTrip(start, run[..n], k);
      }
    }
    if !ProbeSucceedsAt(start, run, n) && IsOpen(start, run[..n]) {
      var k: nat :| LatestTrip(start, run[..n], k);
      assert LatestTrip(start, run, k);
    }
    if TripsAt(start, run, n) {
      assert LatestTrip(start, run, n);
    }
  }

  lemma NoTripBeyond(start: System, run: seq<Action>)
    ensures forall k: nat :: k >= |run| ==> !TripsAt(start, run, k)
  {
  }

  lemma ClockAfter(start: System, run: seq<Action>, n: nat, before: System, s: System)
    requires |run| == n + 1
    requires (exists k: nat :: FailsAt(start, run[..n], k)) ==> exists k: nat :: Clocked(start, run[..n], before, k)
    requires s.breaker.lastFailure
          == if FailsAt(start, run, n) then ReadingAt(start, run, n) else before.breaker.lastFailure
    ensures (exists k: nat :: FailsAt(start, run, k)) ==> exists k: nat :: Clocked(start, run, s, k)
  {
    PastStays(start, run, n);
    hide TripsAt, EndsAt;
    if FailsAt(start, run, n) {
      assert Clocked(start, run, s, n);
    } else if exists k: nat :: FailsAt(start, run, k) {
      var k: nat :| FailsAt(start, run, k);
      assert FailsAt(start, run[..n], k);
      var j: nat :| Clocked(start, run[..n], before, j);
      assert Clocked(start, run, s, j);
    }
  }

  // Over every run, however the calls overlap: the count is the number of plain failures since the
  // last success; the circuit is open exactly if a failure has tripped it and no probe has succeeded
  // since; and its clock runs from the latest failure of all, plain or probe, stale or not.
  lemma HistoryExactly(threshold: int, timeout: real, run: seq<Action>, s: System)
    requires Run(Step, Idle(threshold, timeout), run) == Some(s)
    ensures s.breaker.failures == |Streak(Idle(threshold, timeout), run)|
    ensures s.breaker.state == Open <==> IsOpen(Idle(threshold, timeout), run)
    ensures IsOpen(Idle(threshold, timeout), run) ==>
      exists k: nat :: Clocked(Idle(threshold, timeout), run, s, k)
  {
    RunTells(threshold, timeout, run, s);
    var start := Idle(threshold, timeout);
    hide Run, Step;
    if IsOpen(start, run) {
      var k: nat :| LatestTrip(start, run, k);
      assert FailsAt(start, run, k);
    }
  }

  // The latest failure is recent: its reading is less than the timeout before `now`.
  ghost predicate Recent(start: System, run: seq<Action>, now: real) {
    exists k: nat :: LatestFailure(start, run, k) && now - ReadingAt(start, run, k) < start.breaker.timeout
  }

  lemma OneLatestFailure(start: System, run: seq<Action>, j: nat, k: nat)
    requires LatestFailure(start, run, j) && LatestFailure(start, run, k)
    ensures j == k
  {
  }

  // A new call is rejected exactly if the circuit is open and the latest failure is recent or a probe
  // is in flight; it is told how long the clock still has to run, if it has.
  lemma RejectedExactly(threshold: int, timeout: real, run: seq<Action>, s: System, now: real, later: real)
    requires Run(Step, Idle(threshold, timeout), run) == Some(s)
    ensures s.breaker.Admits(now, later).Rejected?
       <==> IsOpen(Idle(threshold, timeout), run)
            && (Recent(Idle(threshold, timeout), run, now) || exists c :: ProbeInFlight(s, c))
    ensures s.breaker.Admits(now, later).Rejected? ==>
      exists k: nat :: LatestFailure(Idle(threshold, timeout), run, k)
        && var left := timeout - (later - ReadingAt(Idle(threshold, timeout), run, k));
           s.breaker.Admits(now, later).remaining == if left > 0.0 then left else 0.0
  {
    var start := Idle(threshold, timeout);
    HistoryExactly(threshold, timeout, run, s);
    AdmissionExactly(threshold, timeout, run, s, now, later);
    RunsStaySound(threshold, timeout, run, s);
    hide Run, Step, Streak;
    if IsOpen(start, run) {
      var k: nat :| Clocked(start, run, s, k);
      forall j: nat | LatestFailure(start, run, j) ensures j == k {
        OneLatestFailure(start, run, j, k);
      }
    }
  }
}
