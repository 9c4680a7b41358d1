// The two breakers, written independently for threads and for asyncio, admit the same calls when
// calls come one after the other and each step reads the clock once.
module BreakerAgreement {
  import opened Circuits
  import S = SyncBreaker
  import A = AsyncBreaker

  // An ignored failure is a non-retryable one for the one breaker, and a nested rejection or a
  // cancellation for the other.
  datatype Outcome = Success | CountedFailure | IgnoredFailure(cancelled: bool)

  datatype Call = Call(start: real, end: real, outcome: Outcome)

  function SyncRecord(c: Call): S.Record {
    match c.outcome
    case Success => S.Success
    case CountedFailure => S.Failure(true, c.end)
    case IgnoredFailure(_) => S.Failure(false, c.end)
  }

  function AsyncOutcome(o: Outcome): A.Outcome {
    match o
    case Success => A.Returned
    case CountedFailure => A.Raised
    case IgnoredFailure(cancelled) => if cancelled then A.Cancelled else A.NestedOpen
  }

  function SyncAfter(b: S.Breaker, c: Call): S.Breaker {
    if b.Allows(c.start) then b.Recorded(SyncRecord(c)) else b
  }

  function AsyncAfter(b: A.Breaker, c: Call): A.Breaker {
    match b.Admits(c.start, c.start)
    case Rejected(_) => b
    case Admitted(kind) => b.Begun(c.start).Ended(kind, AsyncOutcome(c.outcome), c.end, c.end)
  }

  function SyncDecisions(b: S.Breaker, calls: seq<Call>): seq<bool>
    decreases |calls|
  {
    if calls == [] then []
    else [b.Allows(calls[0].start)] + SyncDecisions(SyncAfter(b, calls[0]), calls[1..])
  }

  function AsyncDecisions(b: A.Breaker, calls: seq<Call>): seq<bool>
    decreases |calls|
  {
    if calls == [] then []
    else [b.Admits(calls[0].start, calls[0].start).Admitted?] + AsyncDecisions(AsyncAfter(b, calls[0]), calls[1..])
  }

  // Failure counts need not agree while the circuit is open: a failed probe is counted by one
  // breaker only.
  ghost predicate Agree(b: S.Breaker, c: A.Breaker) {
    && b.threshold == c.threshold && b.timeout == c.timeout
    && b.state == c.state && b.state != HalfOpen
    && b.lastFailure == c.lastFailure
    && (b.state == Closed ==> b.failures == c.failures)
    && !c.probing
  }

  lemma StepAgrees(b: S.Breaker, c: A.Breaker, call: Call)
    requires Agree(b, c)
    ensures b.Allows(call.start) <==> c.Admits(call.start, call.start).Admitted?
    ensures Agree(SyncAfter(b, call), AsyncAfter(c, call))
  {
  }

  lemma {:induction false} AgreeingBreakersDecideAlike(b: S.Breaker, c: A.Breaker, calls: seq<Call>)
    requires Agree(b, c)
    ensures SyncDecisions(b, calls) == AsyncDecisions(c, calls)
    decreases |calls|
  {
    if calls == [] {
    } else {
      StepAgrees(b, c, calls[0]);
      AgreeingBreakersDecideAlike(SyncAfter(b, calls[0]), AsyncAfter(c, calls[0]), calls[1..]);
    }
  }

  // On every trace of calls, with any clock whatever, both breakers admit exactly the same calls.
  lemma BreakersAdmitTheSameCalls(threshold: int, timeout: real, calls: seq<Call>)
    ensures SyncDecisions(S.Fresh(threshold, timeout), calls) == AsyncDecisions(A.Fresh(threshold, timeout), calls)
  {
    AgreeingBreakersDecideAlike(S.Fresh(threshold, timeout), A.Fresh(threshold, timeout), calls);
  }
}
