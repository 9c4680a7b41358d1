// The circuit breaker of the asyncio adapters (backend/ai_copilot/adapters/circuit_breaker.py).
//
// A call suspends only while the protected function runs, so it is two atomic steps: `Begin`,
// up to that await, and `End`, from it to the return or raise.  Between the two, other calls
// begin and end; a call admitted while the circuit was closed can end while it is open.
module AsyncBreaker {
  import opened Circuits
  import opened Options
  import opened Runs

  datatype Kind = Guarded | Probe

  datatype Admission = Rejected(remaining: real) | Admitted(kind: Kind)

  // How the protected function ends: `NestedOpen` is a CircuitOpenError of a breaker further in,
  // `Cancelled` an asyncio.CancelledError, which `except Exception` does not catch.
  datatype Outcome = Returned | Raised | NestedOpen | Cancelled

  function AtLeastZero(x: real): real {
    if x < 0.0 then 0.0 else x
  }

  // `probing` is whether `_half_open_lock` is held.
  datatype Breaker = Breaker(
    threshold: int, timeout: real, state: Circuit, failures: nat, lastFailure: real, probing: bool)
  {
    function StateAt(now: real): Circuit {
      if state == Open && now - lastFailure >= timeout then HalfOpen else state
    }

    // A rejection reads the clock a second time, at `later`.
    function Admits(now: real, later: real): Admission {
      var rejected := Rejected(AtLeastZero(timeout - (later - lastFailure)));
      match StateAt(now)
      case Open => rejected
      case HalfOpen => if probing then rejected else Admitted(Probe)
      case Closed => Admitted(Guarded)
    }

    function Begun(now: real): Breaker {
      this.(probing := probing || StateAt(now) == HalfOpen)
    }

    function Tripped(now: real): Breaker {
      this.(state := Open, lastFailure := now)
    }

    // Counting a failure reads the clock at `now`; tripping because of it reads it again.
    function Failed(now: real, later: real): Breaker {
      var b := this.(failures := failures + 1, lastFailure := now);
      if b.failures >= threshold then b.Tripped(later) else b
    }

    function Ended(kind: Kind, outcome: Outcome, now: real, later: real): Breaker {
      match kind
      case Guarded => (
        match outcome
        case Returned => this.(failures := 0)
        case Raised => Failed(now, later)
        case _ => this)
      case Probe =>
        var b := match outcome
                 case Returned => this.(state := Closed, failures := 0)
                 case Raised => Tripped(now)
                 case _ => this;
        b.(probing := false)
    }
  }

  function Fresh(threshold: int, timeout: real): Breaker {
    Breaker(threshold, timeout, Closed, 0, 0.0, false)
  }

  // ---- calls in flight ----

  datatype System = System(breaker: Breaker, inFlight: map<nat, Kind>, nextCall: nat)

  datatype Action =
    | Start(now: real, later: real)
    | Finish(call: nat, outcome: Outcome, now: real, later: real)

  function Step(s: System, a: Action): Option<System> {
    match a
    case Start(now, later) => (
      match s.breaker.Admits(now, later)
      case Rejected(_) => Some(s)
      case Admitted(kind) =>
        Some(System(s.breaker.Begun(now), s.inFlight[s.nextCall := kind], s.nextCall + 1)))
    case Finish(call, outcome, now, later) =>
      if call !in s.inFlight then None
      else Some(s.(breaker := s.breaker.Ended(s.inFlight[call], outcome, now, later),
                   inFlight := s.inFlight - {call}))
  }

  function Idle(threshold: int, timeout: real): System {
    System(Fresh(threshold, timeout), map[], 0)
  }

  ghost predicate ProbeInFlight(s: System, call: nat) {
    call in s.inFlight && s.inFlight[call] == Probe
  }

  ghost predicate Sound(s: System) {
    && s.breaker.state != HalfOpen
    && (s.breaker.state == Closed ==> s.breaker.failures == 0 || s.breaker.failures < s.breaker.threshold)
    && (s.breaker.probing <==> exists call :: ProbeInFlight(s, call))
    && (s.breaker.probing ==> s.breaker.state == Open)
    && (forall c, d :: ProbeInFlight(s, c) && ProbeInFlight(s, d) ==> c == d)
    && (forall call :: call in s.inFlight ==> call < s.nextCall)
  }

  lemma StepKeepsSound(s: System, a: Action, t: System)
    requires Sound(s) && Step(s, a) == Some(t)
    ensures Sound(t)
    ensures t.breaker.threshold == s.breaker.threshold && t.breaker.timeout == s.breaker.timeout
  {
    match a
    case Start(now, later) =>
      if s.breaker.Admits(now, later) == Admitted(Probe) {
        assert ProbeInFlight(t, s.nextCall);
        forall c | ProbeInFlight(t, c) ensures c == s.nextCall {
          assert c != s.nextCall ==> ProbeInFlight(s, c);
        }
      } else {
        assert forall c :: ProbeInFlight(t, c) <==> ProbeInFlight(s, c);
      }
    case Finish(call, _, _, _) =>
      assert forall c :: ProbeInFlight(t, c) <==> ProbeInFlight(s, c) && c != call;
      assert s.inFlight[call] == Probe ==> ProbeInFlight(s, call);
  }

  // Under every overlap of calls: at most one probe is in flight, the half-open lock is held
  // exactly while one is, and a closed circuit has seen fewer failures than its threshold.
  lemma {:induction false} RunsStaySound(threshold: int, timeout: real, run: seq<Action>, s: System)
    requires Run(Step, Idle(threshold, timeout), run) == Some(s)
    ensures Sound(s)
    ensures s.breaker.threshold == threshold && s.breaker.timeout == timeout
    ensures threshold >= 1 && s.breaker.state == Closed ==> s.breaker.failures < threshold
  {
    if run == [] {
    } else {
      var before := Run(Step, Idle(threshold, timeout), run[..|run| - 1]).value;
      RunsStaySound(threshold, timeout, run[..|run| - 1], before);
      StepKeepsSound(before, run[|run| - 1], s);
    }
  }

  // However a probe ends, the lock is free afterwards and nothing is probing; whatever else ends
  // leaves the probe and its lock alone.
  lemma ProbeReleasesLock(threshold: int, timeout: real, run: seq<Action>, s: System, a: Action, t: System)
    requires Run(Step, Idle(threshold, timeout), run) == Some(s)
    requires a.Finish? && Step(s, a) == Some(t)
    ensures if ProbeInFlight(s, a.call)
            then !t.breaker.probing && forall c :: !ProbeInFlight(t, c)
            else t.breaker.probing == s.breaker.probing
                 && forall c :: ProbeInFlight(t, c) <==> ProbeInFlight(s, c)
  {
    RunsStaySound(threshold, timeout, run, s);
    StepKeepsSound(s, a, t);
    assert forall c :: ProbeInFlight(t, c) <==> ProbeInFlight(s, c) && c != a.call;
  }

  // What a new call meets, in terms of the calls in flight rather than of the lock.
  lemma AdmissionExactly(threshold: int, timeout: real, run: seq<Action>, s: System, now: real, later: real)
    requires Run(Step, Idle(threshold, timeout), run) == Some(s)
    ensures var a := s.breaker.Admits(now, later);
            && (a == Admitted(Guarded) <==> s.breaker.state == Closed)
            && (a == Admitted(Probe) <==>
                  && s.breaker.state == Open
                  && now - s.breaker.lastFailure >= timeout
                  && forall c :: !ProbeInFlight(s, c))
  {
    RunsStaySound(threshold, timeout, run, s);
  }

  // What it reports, whether or not a probe is in flight.
  lemma ReportsExactly(threshold: int, timeout: real, run: seq<Action>, s: System, now: real)
    requires Run(Step, Idle(threshold, timeout), run) == Some(s)
    ensures s.breaker.StateAt(now) == Closed <==> s.breaker.state == Closed
    ensures s.breaker.StateAt(now) == HalfOpen
       <==> s.breaker.state == Open && now - s.breaker.lastFailure >= timeout
  {
    RunsStaySound(threshold, timeout, run, s);
  }

  ghost predicate SuccessfulProbe(s: System, a: Action) {
    a.Finish? && ProbeInFlight(s, a.call) && a.outcome == Returned
  }

  // OPEN becomes CLOSED only through a successful probe, however many stale calls end meanwhile.
  lemma {:induction false} OnlyAProbeCloses(s: System, run: seq<Action>)
    requires Run(Step, s, run).Some?
    requires s.breaker.state == Open && Run(Step, s, run).value.breaker.state != Open
    ensures exists k :: 0 <= k < |run| && SuccessfulProbe(At(Step, s, run, k), run[k])
  {
    var n := |run| - 1;
    var before := run[..n];
    if At(Step, s, run, n).breaker.state == Open {
      assert SuccessfulProbe(At(Step, s, run, n), run[n]);
    } else {
      OnlyAProbeCloses(s, before);
      var k :| 0 <= k < n && SuccessfulProbe(At(Step, s, before, k), before[k]);
      assert before[..k] == run[..k];
      assert SuccessfulProbe(At(Step, s, run, k), run[k]);
    }
  }

  // ---- does OPEN mean that the threshold was reached? ----

  ghost predicate OpenBound(s: System) {
    s.breaker.state == Open ==> s.breaker.failures >= s.breaker.threshold
  }

  // A call admitted while the circuit was closed returns while it is open: this zeroes the count.
  predicate StaleSuccess(s: System, a: Action) {
    && a.Finish? && a.outcome == Returned && s.breaker.state == Open
    && a.call in s.inFlight && s.inFlight[a.call] == Guarded
  }

  // No other step breaks the bound.
  lemma StepKeepsBoundExactly(s: System, a: Action, t: System)
    requires Sound(s) && OpenBound(s) && Step(s, a) == Some(t)
    ensures OpenBound(t) <==> s.breaker.threshold <= 0 || !StaleSuccess(s, a)
  {
    if a.Finish? && s.inFlight[a.call] == Probe {
      assert ProbeInFlight(s, a.call);
    }
  }

  ghost predicate StaleAt(s: System, run: seq<Action>, k: nat)
    requires Run(Step, s, run).Some? && k < |run|
  {
    StaleSuccess(At(Step, s, run, k), run[k])
  }

  lemma {:induction false} RunsWithoutStaleSuccessKeepBound(threshold: int, timeout: real, run: seq<Action>, s: System)
    requires Run(Step, Idle(threshold, timeout), run) == Some(s)
    requires forall k: nat :: k < |run| ==> !StaleAt(Idle(threshold, timeout), run, k)
    ensures OpenBound(s)
  {
    if run == [] {
    } else {
      var start, n := Idle(threshold, timeout), |run| - 1;
      var before := Run(Step, start, run[..n]).value;
      forall k: nat | k < n ensures !StaleAt(start, run[..n], k) {
        assert run[..n][..k] == run[..k];
        assert !StaleAt(start, run, k);
      }
      RunsWithoutStaleSuccessKeepBound(threshold, timeout, run[..n], before);
      RunsStaySound(threshold, timeout, run[..n], before);
      assert !StaleAt(start, run, n);
      StepKeepsBoundExactly(before, run[n], s);
    }
  }

  ghost predicate BeginsAlone(s: System, run: seq<Action>, k: nat)
    requires Run(Step, s, run).Some? && k < |run|
  {
    run[k].Start? ==> At(Step, s, run, k).inFlight == map[]
  }

  // Callers that never overlap keep it, and no call of theirs is in flight while the circuit is open,
  // except a probe.
  lemma {:induction false} CallsInTurnKeepBound(threshold: int, timeout: real, run: seq<Action>, s: System)
    requires Run(Step, Idle(threshold, timeout), run) == Some(s)
    requires forall k: nat :: k < |run| ==> BeginsAlone(Idle(threshold, timeout), run, k)
    ensures OpenBound(s) && |s.inFlight| <= 1
    ensures s.breaker.state == Open ==> forall c :: c in s.inFlight ==> s.inFlight[c] == Probe
  {
    if run == [] {
    } else {
      var start, n := Idle(threshold, timeout), |run| - 1;
      var before := Run(Step, start, run[..n]).value;
      forall k: nat | k < n ensures BeginsAlone(start, run[..n], k) {
        assert run[..n][..k] == run[..k];
        assert BeginsAlone(start, run, k);
      }
      CallsInTurnKeepBound(threshold, timeout, run[..n], before);
      RunsStaySound(threshold, timeout, run[..n], before);
      assert BeginsAlone(start, run, n);
      StepKeepsBoundExactly(before, run[n], s);
      OneCallAtATime(before, run[n], s);
    }
  }

  lemma OneCallAtATime(s: System, a: Action, t: System)
    requires Sound(s) && Step(s, a) == Some(t) && |s.inFlight| <= 1 && (a.Start? ==> s.inFlight == map[])
    requires s.breaker.state == Open ==> forall c :: c in s.inFlight ==> s.inFlight[c] == Probe
    ensures |t.inFlight| <= 1
    ensures t.breaker.state == Open ==> forall c :: c in t.inFlight ==> t.inFlight[c] == Probe
  {
    if a.Finish? {
      assert s.inFlight.Keys == {a.call} by {
        assert |s.inFlight.Keys| <= 1 && a.call in s.inFlight.Keys;
        assert |s.inFlight.Keys - {a.call}| == |s.inFlight.Keys| - 1;
      }
      assert t.inFlight.Keys == {};
    }
  }

  function Calls(n: nat): (calls: map<nat, Kind>)
    ensures forall c: nat :: c in calls <==> c < n
    ensures forall c: nat :: c in calls ==> calls[c] == Guarded
  {
    if n == 0 then map[] else Calls(n - 1)[n - 1 := Guarded]
  }

  lemma {:induction false} ManyCallsBegin(threshold: int, timeout: real, n: nat) returns (run: seq<Action>)
    ensures Run(Step, Idle(threshold, timeout), run) == Some(System(Fresh(threshold, timeout), Calls(n), n))
  {
    run := [];
    if n == 0 {
    } else {
      run := ManyCallsBegin(threshold, timeout, n - 1);
      RunOne(Step, Idle(threshold, timeout), run, Start(0.0, 0.0));
      run := run + [Start(0.0, 0.0)];
    }
  }

  lemma {:induction false} SomeOfThemFail(threshold: nat, timeout: real, k: nat) returns (run: seq<Action>, s: System)
    requires k <= threshold
    ensures Run(Step, Idle(threshold, timeout), run) == Some(s)
    ensures s.breaker.threshold == threshold && s.breaker.failures == k
    ensures k > 0 && k == threshold ==> s.breaker.state == Open
    ensures forall c :: k <= c <= threshold ==> c in s.inFlight && s.inFlight[c] == Guarded
  {
    if k == 0 {
      run := ManyCallsBegin(threshold, timeout, threshold + 1);
      s := System(Fresh(threshold, timeout), Calls(threshold + 1), threshold + 1);
    } else {
      var a := Finish(k - 1, Raised, 0.0, 0.0);
      run, s := SomeOfThemFail(threshold, timeout, k - 1);
      RunOne(Step, Idle(threshold, timeout), run, a);
      run, s := run + [a], Step(s, a).value;
    }
  }

  // Over all runs the bound holds exactly for thresholds that bound nothing: for any other, a run
  // leaves the circuit open with a count of zero.
  lemma OpenBoundsFailuresExactly(threshold: int, timeout: real)
    ensures (forall run | Run(Step, Idle(threshold, timeout), run).Some? ::
               OpenBound(Run(Step, Idle(threshold, timeout), run).value))
       <==> threshold <= 0
  {
    if threshold <= 0 {
      forall run | Run(Step, Idle(threshold, timeout), run).Some?
        ensures OpenBound(Run(Step, Idle(threshold, timeout), run).value)
      {
        RunsStaySound(threshold, timeout, run, Run(Step, Idle(threshold, timeout), run).value);
      }
    } else {
      var run, s := SomeOfThemFail(threshold, timeout, threshold);
      var a := Finish(threshold, Returned, 0.0, 0.0);
      RunOne(Step, Idle(threshold, timeout), run, a);
      assert !OpenBound(Run(Step, Idle(threshold, timeout), run + [a]).value);
    }
  }

  class CircuitBreaker {
    const failureThreshold: int
    const recoveryTimeout: real
    var state: Circuit
    var failureCount: nat
    var lastFailureTime: real
    var halfOpenLocked: bool

    ghost function View(): Breaker
      reads this
    {
      Breaker(failureThreshold, recoveryTimeout, state, failureCount, lastFailureTime, halfOpenLocked)
    }

    constructor (failureThreshold: int, recoveryTimeout: real)
      ensures View() == Fresh(failureThreshold, recoveryTimeout)
    {
      this.failureThreshold := failureThreshold;
      this.recoveryTimeout := recoveryTimeout;
      state := Closed;
      failureCount := 0;
      lastFailureTime := 0.0;
      halfOpenLocked := false;
    }

    method State(now: real) returns (seen: Circuit)
      ensures seen == View().StateAt(now)
    {
      if state == Open {
        var elapsed := now - lastFailureTime;
        if elapsed >= recoveryTimeout {
          return HalfOpen;
        }
      }
      return state;
    }

    // `call`, up to the await of the protected function.
    method Begin(now: real, later: real) returns (a: Admission)
      modifies this
      ensures a == old(View()).Admits(now, later)
      ensures View() == if a.Rejected? then old(View()) else old(View()).Begun(now)
    {
      var current := State(now);
      if current == Open {
        var remaining := recoveryTimeout - (later - lastFailureTime);
        return Rejected(AtLeastZero(remaining));
      }
      if current == HalfOpen {
        if halfOpenLocked {
          var remaining := recoveryTimeout - (later - lastFailureTime);
          return Rejected(AtLeastZero(remaining));
        }
        halfOpenLocked := true;
        return Admitted(Probe);
      }
      return Admitted(Guarded);
    }

    // `call`, from the end of the protected function on.
    method End(kind: Kind, outcome: Outcome, now: real, later: real)
      modifies this
      ensures View() == old(View()).Ended(kind, outcome, now, later)
    {
      match kind
      case Guarded =>
        if outcome == Returned {
          OnSuccess();
        } else if outcome == Raised {
          OnFailure(now, later);
        }
      case Probe =>
        if outcome == Returned {
          Reset();
        } else if outcome == Raised {
          Trip(now);
        }
        halfOpenLocked := false;
    }

    method OnSuccess()
      modifies this
      ensures View() == old(View()).(failures := 0)
    {
      if failureCount > 0 {
        failureCount := 0;
      }
    }

    method OnFailure(now: real, later: real)
      modifies this
      ensures View() == old(View()).Failed(now, later)
    {
      failureCount := failureCount + 1;
      lastFailureTime := now;
      if failureCount >= failureThreshold {
        Trip(later);
      }
    }

    method Trip(now: real)
      modifies this
      ensures View() == old(View()).Tripped(now)
    {
      state := Open;
      lastFailureTime := now;
    }

    method Reset()
      modifies this
      ensures View() == old(View()).(state := Closed, failures := 0)
    {
      state := Closed;
      failureCount := 0;
    }
  }
}
