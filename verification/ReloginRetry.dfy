// The retry loop of `relogin_account_sync` (backend/instagram_runtime/relogin.py).
module ReloginRetry {
  import opened Options
  import opened LoginProtocol

  const COOLDOWN_MIN := 30.0
  const COOLDOWN_MAX := 120.0
  const JITTER_MAX := 15.0

  // A classified failure.  `cooldown`: rate limited or told to wait.  `retryAfter` is what the rate
  // limit guard answers for the account, `jitter` the random draw.
  datatype Failure = Failure(retryable: bool, cooldown: bool, retryAfter: real, jitter: real)

  datatype Attempt = Succeeds(client: nat) | Fails(failure: Failure)

  // What the loop did: strategy calls, sleeps, and the client it ended with.
  datatype Tries = Tries(calls: nat, sleeps: seq<real>, client: Option<nat>)

  function Max(a: real, b: real): real { if a < b then b else a }

  function Min(a: real, b: real): real { if b < a then b else a }

  function Pow2(n: nat): nat {
    if n == 0 then 1 else 2 * Pow2(n - 1)
  }

  // _compute_retry_delay_seconds
  function Delay(f: Failure, retryIndex: nat): real {
    if f.cooldown then
      var retryAfter := Max(f.retryAfter, 0.0);
      var wanted := if retryAfter > 0.0 then retryAfter else COOLDOWN_MIN;
      Min(Max(wanted, COOLDOWN_MIN), COOLDOWN_MAX) + Max(f.jitter, 0.0)
    else Pow2(retryIndex) as real
  }

  function Retry(attempts: seq<Attempt>, k: nat): Tries
    requires k < |attempts|
    decreases |attempts| - k
  {
    match attempts[k]
    case Succeeds(client) => Tries(k + 1, [], Some(client))
    case Fails(f) =>
      if f.retryable && k < |attempts| - 1 then
        var rest := Retry(attempts, k + 1);
        rest.(sleeps := [Delay(f, k)] + rest.sleeps)
      else Tries(k + 1, [], None)
  }

  function Total(sleeps: seq<real>): real {
    if sleeps == [] then 0.0 else sleeps[0] + Total(sleeps[1..])
  }

  // The attempt at which the loop ends: a success, a failure not worth retrying, or the last.
  ghost predicate Ends(attempts: seq<Attempt>, k: nat) {
    && k < |attempts|
    && (attempts[k].Succeeds? || !attempts[k].failure.retryable || k == |attempts| - 1)
    && forall i :: 0 <= i < k ==> attempts[i].Fails? && attempts[i].failure.retryable
  }

  lemma {:induction false} RetryFrom(attempts: seq<Attempt>, k: nat)
    requires k < |attempts|
    requires forall i :: 0 <= i < k ==> attempts[i].Fails? && attempts[i].failure.retryable
    ensures var t := Retry(attempts, k);
      && t.calls >= k + 1 && Ends(attempts, t.calls - 1)
      && |t.sleeps| == t.calls - 1 - k
      && (forall i :: 0 <= i < |t.sleeps| ==>
            attempts[k + i].Fails? && t.sleeps[i] == Delay(attempts[k + i].failure, k + i))
      && t.client == match attempts[t.calls - 1] case Succeeds(c) => Some(c) case Fails(_) => None
    decreases |attempts| - k
  {
    if attempts[k].Fails? && attempts[k].failure.retryable && k < |attempts| - 1 {
      RetryFrom(attempts, k + 1);
    }
  }

  // For any bound on the attempts: the strategy is called up to and including the first attempt
  // that ends the loop, with one sleep between any two calls and none after the last.
  lemma RetryExactly(attempts: seq<Attempt>)
    requires attempts != []
    ensures var t := Retry(attempts, 0);
      && 1 <= t.calls <= |attempts| && Ends(attempts, t.calls - 1)
      && |t.sleeps| == t.calls - 1
      && (forall i :: 0 <= i < |t.sleeps| ==>
            attempts[i].Fails? && t.sleeps[i] == Delay(attempts[i].failure, i))
      && t.client == match attempts[t.calls - 1] case Succeeds(c) => Some(c) case Fails(_) => None
  {
    RetryFrom(attempts, 0);
  }

  // ---- how long it sleeps ----

  predicate DrawnInRange(attempts: seq<Attempt>) {
    forall i :: 0 <= i < |attempts| && attempts[i].Fails? ==> 0.0 <= attempts[i].failure.jitter <= JITTER_MAX
  }

  // A failure that calls for a cooldown waits as long as the rate limit asks for, but never less than
  // half a minute nor more than two, and a jitter on top; any other failure twice as long each time.
  lemma DelayExactly(f: Failure, k: nat)
    ensures f.cooldown ==>
      var jitter := if f.jitter < 0.0 then 0.0 else f.jitter;
      && (f.retryAfter < 30.0 ==> Delay(f, k) == 30.0 + jitter)
      && (30.0 <= f.retryAfter <= 120.0 ==> Delay(f, k) == f.retryAfter + jitter)
      && (120.0 < f.retryAfter ==> Delay(f, k) == 120.0 + jitter)
    ensures !f.cooldown ==> Delay(f, 0) == 1.0 && Delay(f, k + 1) == 2.0 * Delay(f, k)
  {
    assert Pow2(0) == 1 && Pow2(k + 1) == 2 * Pow2(k);
  }

  lemma CooldownDelayIsBounded(f: Failure, k: nat)
    requires f.cooldown && 0.0 <= f.jitter <= JITTER_MAX
    ensures 30.0 <= Delay(f, k) <= 135.0
  {
  }

  lemma {:induction false} PlainSleeps(attempts: seq<Attempt>, k: nat)
    requires k < |attempts|
    requires forall i :: k <= i < |attempts| && attempts[i].Fails? ==> !attempts[i].failure.cooldown
    ensures var t := Retry(attempts, k);
      t.calls >= k + 1 && Total(t.sleeps) == Pow2(t.calls - 1) as real - Pow2(k) as real
    decreases |attempts| - k
  {
    if attempts[k].Fails? && attempts[k].failure.retryable && k < |attempts| - 1 {
      PlainSleeps(attempts, k + 1);
      var rest := Retry(attempts, k + 1);
      assert ([Delay(attempts[k].failure, k)] + rest.sleeps)[1..] == rest.sleeps;
    }
  }

  // Plain transient failures alone: `r` retries sleep exactly 2^r - 1 seconds.
  lemma PlainRetriesSleepExactly(attempts: seq<Attempt>)
    requires attempts != []
    requires forall i :: 0 <= i < |attempts| && attempts[i].Fails? ==> !attempts[i].failure.cooldown
    ensures var t := Retry(attempts, 0); Total(t.sleeps) == Pow2(|t.sleeps|) as real - 1.0
  {
    PlainSleeps(attempts, 0);
    RetryFrom(attempts, 0);
  }

  // The most the loop can sleep from attempt `k` on when every wait is as long as it can be.
  function Longest(k: nat, n: nat): (r: real)
    requires k < n
    ensures r >= 0.0
    decreases n - k
  {
    if k == n - 1 then 0.0 else Max(Pow2(k) as real, COOLDOWN_MAX + JITTER_MAX) + Longest(k + 1, n)
  }

  lemma {:induction false} SleepIsBoundedFrom(attempts: seq<Attempt>, k: nat)
    requires k < |attempts| && DrawnInRange(attempts)
    ensures 0.0 <= Total(Retry(attempts, k).sleeps) <= Longest(k, |attempts|)
    decreases |attempts| - k
  {
    if attempts[k].Fails? && attempts[k].failure.retryable && k < |attempts| - 1 {
      SleepIsBoundedFrom(attempts, k + 1);
      var f, rest := attempts[k].failure, Retry(attempts, k + 1);
      assert ([Delay(f, k)] + rest.sleeps)[1..] == rest.sleeps;
      if f.cooldown {
        CooldownDelayIsBounded(f, k);
      }
    }
  }

  // With the source's three attempts no relogin sleeps longer than four and a half minutes.
  lemma ThreeAttemptsSleepAtMost(attempts: seq<Attempt>)
    requires |attempts| == 3 && DrawnInRange(attempts)
    ensures 0.0 <= Total(Retry(attempts, 0).sleeps) <= 270.0
  {
    SleepIsBoundedFrom(attempts, 0);
    assert Pow2(0) == 1 && Pow2(1) == 2;
    assert Longest(2, 3) == 0.0 && Longest(1, 3) == 135.0;
  }

  // ---- logins ----

  // Attempts of the session-restore strategy: the login protocol in one world after the other.
  // Attempt `i` creates the clients `first + 2 * i` and the one after it.
  function Reports(worlds: seq<World>, verify: bool, first: nat): (reports: seq<Report>)
    ensures |reports| == |worlds|
    ensures forall i :: 0 <= i < |worlds| ==> reports[i] == Authenticate(worlds[i], verify, first + 2 * i)
  {
    seq(|worlds|, i requires 0 <= i < |worlds| => Authenticate(worlds[i], verify, first + 2 * i))
  }

  // How the retry loop sees them, with their exceptions classified.
  function AttemptsOf(reports: seq<Report>, classify: (nat, Raised) -> Failure): (attempts: seq<Attempt>)
    ensures |attempts| == |reports|
  {
    seq(|reports|, i requires 0 <= i < |reports| =>
      match reports[i].result
      case Returned(client) => Succeeds(client)
      case Escaped(exn) => Fails(classify(i, exn)))
  }

  // A relogin in these worlds: each attempt but the last escapes with an exception that is classified
  // as worth retrying, and is slept off by its own classification; the last returns the client, or
  // escapes with one that is not worth it or that no attempt is left for.
  lemma ReloginExactly(worlds: seq<World>, verify: bool, classify: (nat, Raised) -> Failure, first: nat)
    requires worlds != []
    ensures var t := Retry(AttemptsOf(Reports(worlds, verify, first), classify), 0);
      && 1 <= t.calls <= |worlds| && |t.sleeps| == t.calls - 1
      && (forall i: nat :: i < t.calls - 1 ==> IsRetried(worlds, verify, classify, first, i, t.sleeps[i]))
      && var last := Authenticate(worlds[t.calls - 1], verify, first + 2 * (t.calls - 1)).result;
         && (t.client.Some? <==> last.Returned?)
         && (last.Returned? ==> t.client == Some(last.client))
         && (last.Escaped? ==> !classify(t.calls - 1, last.exn).retryable || t.calls == |worlds|)
  {
    hide Authenticate, Retry;
    RetryExactly(AttemptsOf(Reports(worlds, verify, first), classify));
    var t := Retry(AttemptsOf(Reports(worlds, verify, first), classify), 0);
    forall i: nat | i < t.calls ensures IsAttempt(worlds, verify, classify, first, i) {
      AttemptExactly(worlds, verify, classify, first, i);
    }
    assert IsAttempt(worlds, verify, classify, first, t.calls - 1);
    forall i: nat | i < t.calls - 1 ensures IsRetried(worlds, verify, classify, first, i, t.sleeps[i]) {
      assert IsAttempt(worlds, verify, classify, first, i);
    }
    hide AttemptsOf, Reports, Delay, IsRetried;
  }

  // An attempt that escapes with an exception worth retrying, and what is slept for it.
  ghost predicate IsRetried(
    worlds: seq<World>, verify: bool, classify: (nat, Raised) -> Failure, first: nat, i: nat, sleep: real)
    requires i < |worlds|
  {
    var result := Authenticate(worlds[i], verify, first + 2 * i).result;
    && result.Escaped? && classify(i, result.exn).retryable && sleep == Delay(classify(i, result.exn), i)
  }

  ghost predicate IsAttempt(
    worlds: seq<World>, verify: bool, classify: (nat, Raised) -> Failure, first: nat, i: nat)
    requires i < |worlds|
  {
    var attempt := AttemptsOf(Reports(worlds, verify, first), classify)[i];
    var result := Authenticate(worlds[i], verify, first + 2 * i).result;
    if result.Returned? then attempt == Succeeds(result.client) else attempt == Fails(classify(i, result.exn))
  }

  lemma AttemptExactly(
    worlds: seq<World>, verify: bool, classify: (nat, Raised) -> Failure, first: nat, i: nat)
    requires i < |worlds|
    ensures IsAttempt(worlds, verify, classify, first, i)
  {
    hide Authenticate;
    assert Reports(worlds, verify, first)[i] == Authenticate(worlds[i], verify, first + 2 * i);
  }

  function LoginsIn(reports: seq<Report>): nat {
    if reports == [] then 0
    else LoginsIn(reports[..|reports| - 1]) + LoginCount(reports[|reports| - 1].trace)
  }

  lemma {:induction false} LoginsAddUp(reports: seq<Report>)
    requires forall i :: 0 <= i < |reports| ==> LoginCount(reports[i].trace) <= 3
    ensures LoginsIn(reports) <= 3 * |reports|
  {
    if reports == [] {
    } else {
      LoginsAddUp(reports[..|reports| - 1]);
    }
  }

  // With session restore, a relogin bounded by `n` attempts makes at most 3n logins.
  lemma ReloginLoginsAreBounded(worlds: seq<World>, verify: bool, classify: (nat, Raised) -> Failure, first: nat)
    requires worlds != []
    ensures var reports := Reports(worlds, verify, first);
      var t := Retry(AttemptsOf(reports, classify), 0);
      1 <= t.calls <= |worlds| && LoginsIn(reports[..t.calls]) <= 3 * t.calls <= 3 * |worlds|
  {
    hide Authenticate, Retry, AttemptsOf;
    var reports := Reports(worlds, verify, first);
    RetryExactly(AttemptsOf(reports, classify));
    var calls := Retry(AttemptsOf(reports, classify), 0).calls;
    forall i | 0 <= i < calls ensures LoginCount(reports[i].trace) <= 3 {
      ProtocolIsBounded(worlds[i], verify, first + 2 * i);
    }
    hide LoginCount, Reports;
    LoginsAddUp(reports[..calls]);
  }

  // The clients left waiting for a two-factor code after these attempts.
  function PendingAfter(pending: map<string, nat>, username: string, reports: seq<Report>): map<string, nat>
    decreases |reports|
  {
    if reports == [] then pending
    else
      var before := PendingAfter(pending, username, reports[..|reports| - 1]);
      Remembered(before, username, reports[|reports| - 1])
  }

  // Without an attempt that needs a code nobody new waits ...
  lemma {:induction false} NobodyNewWaits(pending: map<string, nat>, username: string, reports: seq<Report>)
    requires forall i :: 0 <= i < |reports| ==> reports[i].pending == None
    ensures PendingAfter(pending, username, reports) == pending
    decreases |reports|
  {
    if reports == [] {
    } else {
      NobodyNewWaits(pending, username, reports[..|reports| - 1]);
    }
  }

  // ... and of those that do, the last leaves its client waiting.
  lemma {:induction false} LastOneWaits(pending: map<string, nat>, username: string, reports: seq<Report>, i: nat)
    requires i < |reports| && reports[i].pending.Some?
    requires forall j :: i < j < |reports| ==> reports[j].pending == None
    ensures var after := PendingAfter(pending, username, reports);
      && username in after && after[username] == reports[i].pending.value
      && after - {username} == pending - {username}
    decreases |reports|
  {
    var n := |reports| - 1;
    OthersStillWait(pending, username, reports);
    if i < n {
      LastOneWaits(pending, username, reports[..n], i);
    }
  }

  lemma RememberedOnly(pending: map<string, nat>, username: string, r: Report)
    ensures Remembered(pending, username, r) - {username} == pending - {username}
  {
  }

  lemma {:induction false} OthersStillWait(pending: map<string, nat>, username: string, reports: seq<Report>)
    ensures PendingAfter(pending, username, reports) - {username} == pending - {username}
    decreases |reports|
  {
    if reports == [] {
    } else {
      OthersStillWait(pending, username, reports[..|reports| - 1]);
      RememberedOnly(PendingAfter(pending, username, reports[..|reports| - 1]), username, reports[|reports| - 1]);
    }
  }

  // `after` is `before`, but for one of the clients `first`..`next - 1` waiting for `username`.
  ghost predicate AddsOwn(before: map<string, nat>, after: map<string, nat>, username: string, first: nat, next: nat) {
    || after == before
    || (username in after && after == before[username := after[username]] && first <= after[username] < next)
  }

  // Every report is about the two clients its attempt creates.
  ghost predicate OwnClients(reports: seq<Report>, first: nat) {
    forall i: nat :: i < |reports| ==> OwnReport(reports[i], first + 2 * i)
  }

  lemma ReportsOwnClients(worlds: seq<World>, verify: bool, first: nat)
    ensures OwnClients(Reports(worlds, verify, first), first)
  {
    hide OwnReport, Authenticate;
    forall i: nat | i < |worlds| ensures OwnReport(Authenticate(worlds[i], verify, first + 2 * i), first + 2 * i) {
      ClientsAreOwn(worlds[i], verify, first + 2 * i);
    }
  }

  // Whatever a relogin adds to the waiting clients is one it created itself.
  lemma {:induction false} PendingIsOwn(pending: map<string, nat>, username: string, reports: seq<Report>, first: nat)
    requires OwnClients(reports, first)
    ensures AddsOwn(pending, PendingAfter(pending, username, reports), username, first, first + 2 * |reports|)
    decreases |reports|
  {
    if reports == [] {
    } else {
      PendingIsOwn(pending, username, reports[..|reports| - 1], first);
    }
  }

  // ---- how long one sleep is ----

  method ComputeRetryDelay(failure: Failure, retryIndex: nat) returns (delay: real)
    ensures delay == Delay(failure, retryIndex)
    ensures failure.cooldown && failure.jitter <= JITTER_MAX ==> COOLDOWN_MIN <= delay <= COOLDOWN_MAX + JITTER_MAX
  {
    if failure.cooldown {
      var retryAfter := Max(failure.retryAfter, 0.0);
      var cooldown := if retryAfter > 0.0 then retryAfter else COOLDOWN_MIN;
      cooldown := Max(cooldown, COOLDOWN_MIN);
      cooldown := Min(cooldown, COOLDOWN_MAX);
      var jitter := Max(failure.jitter, 0.0);
      return cooldown + jitter;
    }
    return Pow2(retryIndex) as real;
  }
}
