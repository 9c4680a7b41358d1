// The circuit breaker of the threaded upload path
// (backend/instagram_runtime/circuit_breaker.py).
//
// `Breaker` is the value of the object's fields and carries the specification functions;
// `SyncCircuitBreaker` is the object itself.  A clock reading is a parameter.
module SyncBreaker {
  import opened Circuits

  // One call of `record_success` or `record_failure`, with the clock reading the latter takes.
  datatype Record = Success | Failure(retryable: bool, at: real)

  datatype Breaker = Breaker(threshold: int, timeout: real, state: Circuit, failures: nat, lastFailure: real) {
    function StateAt(now: real): Circuit {
      if state == Open && now - lastFailure >= timeout then HalfOpen else state
    }

    predicate Allows(now: real) {
      StateAt(now) != Open
    }

    function Recorded(r: Record): Breaker {
      match r
      case Success => this.(failures := 0, state := Closed)
      case Failure(retryable, at) =>
        if !retryable then this
        else this.(failures := failures + 1, lastFailure := at,
                   state := if failures + 1 >= threshold && state != Open then Open else state)
    }
  }

  function Fresh(threshold: int, timeout: real): Breaker {
    Breaker(threshold, timeout, Closed, 0, 0.0)
  }

  // The breaker after a whole history of records, oldest first.
  function Replay(b: Breaker, h: seq<Record>): Breaker {
    if h == [] then b else Replay(b, h[..|h| - 1]).Recorded(h[|h| - 1])
  }

  // ---- the history the breaker summarises ----

  predicate Counts(r: Record) {
    r.Failure? && r.retryable
  }

  // The positions of the retryable failures that no later success has wiped out.
  ghost function Streak(h: seq<Record>): set<nat> {
    set k: nat | k < |h| && Counts(h[k]) && (forall j :: k < j < |h| ==> h[j] != Success)
  }

  ghost predicate LatestOf(k: nat, s: set<nat>) {
    k in s && forall j :: j in s ==> j <= k
  }

  // The history as far as the breaker is concerned: terminal per-account errors removed.
  function Erased(h: seq<Record>): seq<Record> {
    if h == [] then []
    else
      var r := h[|h| - 1];
      Erased(h[..|h| - 1]) + (if r.Failure? && !r.retryable then [] else [r])
  }

  ghost predicate Summarises(b: Breaker, h: seq<Record>) {
    && b.failures == |Streak(h)|
    && b.state != HalfOpen
    && (b.state == Open <==> Streak(h) != {} && |Streak(h)| >= b.threshold)
    && (Streak(h) != {} ==> exists k: nat :: LatestOf(k, Streak(h)) && b.lastFailure == h[k].at)
  }

  lemma StreakGrows(h: seq<Record>, r: Record)
    ensures r == Success ==> Streak(h + [r]) == {}
    ensures Counts(r) ==> Streak(h + [r]) == Streak(h) + {|h|} && |h| !in Streak(h)
    ensures r.Failure? && !r.retryable ==> Streak(h + [r]) == Streak(h)
  {
    var g := h + [r];
    assert forall k: nat :: k < |h| ==> g[k] == h[k];
    assert g[|h|] == r;
    if r == Success {
      forall k: nat | k < |g| ensures k !in Streak(g) {
        assert k < |h| ==> g[|h|] == Success;
      }
    } else {
      forall k: nat | k < |h| ensures k in Streak(g) <==> k in Streak(h) {
        if k in Streak(h) {
          forall j | k < j < |g| ensures g[j] != Success {}
        }
        if k in Streak(g) {
          forall j | k < j < |h| ensures h[j] != Success { assert g[j] == h[j]; }
        }
      }
    }
  }

  lemma RecordedSummarises(b: Breaker, h: seq<Record>, r: Record)
    requires Summarises(b, h)
    ensures Summarises(b.Recorded(r), h + [r])
  {
    StreakGrows(h, r);
    var g, c := h + [r], b.Recorded(r);
    if Counts(r) {
      assert |Streak(g)| == |Streak(h)| + 1;
      assert LatestOf(|h|, Streak(g)) && c.lastFailure == g[|h|].at;
    } else if Streak(g) != {} {
      var k: nat :| LatestOf(k, Streak(h)) && b.lastFailure == h[k].at;
      assert LatestOf(k, Streak(g)) && c.lastFailure == g[k].at;
    }
  }

  lemma {:induction false} ReplaySummarises(threshold: int, timeout: real, h: seq<Record>)
    ensures Summarises(Replay(Fresh(threshold, timeout), h), h)
    ensures Replay(Fresh(threshold, timeout), h).threshold == threshold
    ensures Replay(Fresh(threshold, timeout), h).timeout == timeout
  {
    if h == [] {
      assert Streak(h) == {};
    } else {
      var g, r := h[..|h| - 1], h[|h| - 1];
      ReplaySummarises(threshold, timeout, g);
      assert h == g + [r];
      RecordedSummarises(Replay(Fresh(threshold, timeout), g), g, r);
    }
  }

  // A request is refused exactly when enough retryable failures have followed the last success
  // and the newest of them is more recent than the recovery timeout.
  lemma RefusesExactly(threshold: int, timeout: real, h: seq<Record>, now: real)
    ensures var b := Replay(Fresh(threshold, timeout), h);
            b.state == Open <==> Streak(h) != {} && |Streak(h)| >= threshold
    ensures !Replay(Fresh(threshold, timeout), h).Allows(now)
       <==> |Streak(h)| >= threshold && exists k: nat :: LatestOf(k, Streak(h)) && now - h[k].at < timeout
  {
    ReplaySummarises(threshold, timeout, h);
    var b := Replay(Fresh(threshold, timeout), h);
    if Streak(h) != {} {
      var k: nat :| LatestOf(k, Streak(h)) && b.lastFailure == h[k].at;
      forall j: nat | LatestOf(j, Streak(h)) ensures j == k {}
    }
  }

  // What it reports: closed below the threshold, open while it refuses, half open from then on.
  lemma ReportsExactly(threshold: int, timeout: real, h: seq<Record>, now: real)
    ensures var seen := Replay(Fresh(threshold, timeout), h).StateAt(now);
      && (seen == Closed <==> Streak(h) == {} || |Streak(h)| < threshold)
      && (seen == Open <==>
            |Streak(h)| >= threshold && exists k: nat :: LatestOf(k, Streak(h)) && now - h[k].at < timeout)
  {
    RefusesExactly(threshold, timeout, h, now);
    ReplaySummarises(threshold, timeout, h);
    hide Streak;
  }

  // Account-level errors are invisible to the breaker, wherever they occur in the history.
  lemma {:induction false} TerminalErrorsAreInvisible(b: Breaker, h: seq<Record>)
    ensures Replay(b, Erased(h)) == Replay(b, h)
    ensures forall r :: r in Erased(h) ==> r == Success || Counts(r)
  {
    if h == [] {
    } else {
      var g, r := h[..|h| - 1], h[|h| - 1];
      TerminalErrorsAreInvisible(b, g);
      if r.Failure? && !r.retryable {
        assert Erased(h) == Erased(g);
      } else {
        assert Erased(h)[..|Erased(h)| - 1] == Erased(g);
      }
    }
  }

  class SyncCircuitBreaker {
    const failureThreshold: int
    const recoveryTimeout: real
    var state: Circuit
    var failureCount: nat
    var lastFailureTime: real

    ghost function View(): Breaker
      reads this
    {
      Breaker(failureThreshold, recoveryTimeout, state, failureCount, lastFailureTime)
    }

    constructor (failureThreshold: int, recoveryTimeout: real)
      ensures View() == Fresh(failureThreshold, recoveryTimeout)
    {
      this.failureThreshold := failureThreshold;
      this.recoveryTimeout := recoveryTimeout;
      state := Closed;
      failureCount := 0;
      lastFailureTime := 0.0;
    }

    method State(now: real) returns (seen: Circuit)
      ensures seen == View().StateAt(now)
    {
      if state == Open {
        if now - lastFailureTime >= recoveryTimeout {
          return HalfOpen;
        }
      }
      return state;
    }

    method AllowRequest(now: real) returns (allowed: bool)
      ensures allowed == View().Allows(now)
    {
      var seen := State(now);
      allowed := seen != Open;
    }

    method RecordSuccess()
      modifies this
      ensures View() == old(View()).Recorded(Success)
    {
      failureCount := 0;
      state := Closed;
    }

    method RecordFailure(retryable: bool, now: real)
      modifies this
      ensures View() == old(View()).Recorded(Failure(retryable, now))
    {
      if !retryable {
        return;
      }
      failureCount := failureCount + 1;
      lastFailureTime := now;
      if failureCount >= failureThreshold && state != Open {
        state := Open;
      }
    }
  }
}
