// The login protocol told from its inputs: which attempts it makes, which client it returns, and what
// it raises otherwise.
module LoginPaths {
  import opened Options
  import opened LoginProtocol

  // What came of the restored session: of its check, where it logged in and was asked for one.
  function SessionOutcome(w: World, verify: bool): Outcome {
    if w.login == Fine && verify then w.check else w.login
  }

  // An attempt after which no other can help.
  predicate Decides(o: Outcome) {
    o == Fine || o == Raise(TwoFactorRequired) || o == Raise(BadPassword) || o == Raise(ChallengeRequired)
  }

  predicate TriesSession(w: World) {
    w.session.Some? && w.clientOk && w.loadOk
  }

  predicate TriesCheck(w: World, verify: bool) {
    TriesSession(w) && w.login == Fine && verify
  }

  // The session has expired, and its device can be put on a client without its cookies.
  predicate TriesRelogin(w: World, verify: bool) {
    && TriesSession(w) && SessionOutcome(w, verify) == Raise(LoginRequired)
    && w.resetOk && w.session != Some(NoEntry) && w.setUuidsOk && w.codeOk
  }

  // There is no session, or nothing tried with it has decided.
  predicate TriesFresh(w: World, verify: bool) {
    && w.freshClientOk && w.freshCodeOk
    && (w.session == None
        || (TriesSession(w) && !Decides(SessionOutcome(w, verify))
            && (TriesRelogin(w, verify) ==> !Decides(w.relogin))))
  }

  function Device(w: World): Option<string> {
    match w.session
    case Some(Uuids(text)) => Some(text)
    case _ => None
  }

  function FreshDevice(w: World): Option<string> {
    if w.readOk && w.restoreUuidsOk then Device(w) else None
  }

  function If(tried: bool, e: Event): seq<Event> {
    if tried then [e] else []
  }

  // The attempts, in their order.
  function Attempts(w: World, verify: bool, client: nat): seq<Event> {
    If(TriesSession(w), Login(client, Device(w), false, w.login))
    + If(TriesCheck(w, verify), Check(client, w.check))
    + If(TriesRelogin(w, verify), Login(client, Device(w), true, w.relogin))
    + If(TriesFresh(w, verify), Login(client + 1, FreshDevice(w), true, w.freshLogin))
  }

  lemma AttemptsExactly(w: World, verify: bool, client: nat)
    ensures Authenticate(w, verify, client).trace == Attempts(w, verify, client)
  {
    if w.session == None {
      FreshExactly(w, client, [], None);
    } else {
      SessionExactly(w, w.session.value, verify, client);
      var path := FromSession(w, w.session.value, verify, client);
      if path.FallThrough? {
        FreshExactly(w, client, path.trace, path.uuids);
      }
    }
    hide FromSession, Fresh, Decides, SessionOutcome;
  }

  function SessionAttempts(w: World, verify: bool, client: nat): seq<Event> {
    If(TriesSession(w), Login(client, Device(w), false, w.login))
    + If(TriesCheck(w, verify), Check(client, w.check))
    + If(TriesRelogin(w, verify), Login(client, Device(w), true, w.relogin))
  }

  // Up to the fresh login: what has been tried, and whether it decides.
  lemma SessionExactly(w: World, saved: Saved, verify: bool, client: nat)
    requires w.session == Some(saved)
    ensures var path := FromSession(w, saved, verify, client);
      && (path.FallThrough? <==>
            TriesSession(w) && !Decides(SessionOutcome(w, verify)) && (TriesRelogin(w, verify) ==> !Decides(w.relogin)))
      && (path.FallThrough? ==>
            path.trace == SessionAttempts(w, verify, client)
            && path.uuids == if w.readOk then Device(w) else None)
      && (path.Over? ==> path.report.trace == SessionAttempts(w, verify, client))
  {
    var login := Login(client, Fingerprint(saved), false, w.login);
    var (trace, outcome) := Restore(w, saved, verify, client);
    assert outcome == SessionOutcome(w, verify);
    assert TriesSession(w) ==> trace == If(true, login) + If(TriesCheck(w, verify), Check(client, w.check));
    assert Fingerprint(saved) == Device(w);
    hide Restore;
  }

  lemma FreshExactly(w: World, client: nat, trace: seq<Event>, captured: Option<string>)
    ensures var uuids := if captured.Some? && w.restoreUuidsOk then captured else None;
      Fresh(w, client + 1, trace, captured).trace
      == trace + If(w.freshClientOk && w.freshCodeOk, Login(client + 1, uuids, true, w.freshLogin))
  {
  }

  // ---- what it comes to ----

  predicate SessionReturns(w: World, verify: bool) {
    && w.dumpOk
    && ((TriesSession(w) && SessionOutcome(w, verify) == Fine) || (TriesRelogin(w, verify) && w.relogin == Fine))
  }

  predicate FreshReturns(w: World, verify: bool) {
    w.freshDumpOk && TriesFresh(w, verify) && w.freshLogin == Fine
  }

  // The session's client raised it, and it is one that is not followed by another attempt.
  predicate SessionRaises(w: World, verify: bool, exn: Raised) {
    && (exn == TwoFactorRequired || exn == BadPassword || exn == ChallengeRequired)
    && ((TriesSession(w) && SessionOutcome(w, verify) == Raise(exn))
        || (TriesRelogin(w, verify) && w.relogin == Raise(exn)))
  }

  predicate FreshRaises(w: World, verify: bool, exn: Raised) {
    TriesFresh(w, verify) && w.freshLogin == Raise(exn)
  }

  lemma OutcomeExactly(w: World, verify: bool, client: nat)
    ensures var r := Authenticate(w, verify, client);
      && (r.result == Returned(client) <==> SessionReturns(w, verify))
      && (r.result == Returned(client + 1) <==> FreshReturns(w, verify))
      && (r.result.Returned? ==> r.result.client == client || r.result.client == client + 1)
      && (forall exn :: exn != OtherError ==>
            (r.result == Escaped(exn) <==> SessionRaises(w, verify, exn) || FreshRaises(w, verify, exn)))
  {
    if w.session == None {
    } else {
      SessionResultExactly(w, w.session.value, verify, client);
      hide FromSession;
    }
  }

  lemma SessionResultExactly(w: World, saved: Saved, verify: bool, client: nat)
    requires w.session == Some(saved)
    ensures var path := FromSession(w, saved, verify, client);
      && (path.FallThrough? <==>
            TriesSession(w) && !Decides(SessionOutcome(w, verify)) && (TriesRelogin(w, verify) ==> !Decides(w.relogin)))
      && (path.Over? ==>
            && (path.report.result == Returned(client) <==> SessionReturns(w, verify))
            && (path.report.result.Returned? ==> path.report.result.client == client)
            && forall exn :: exn != OtherError ==>
                 (path.report.result == Escaped(exn) <==> SessionRaises(w, verify, exn)))
      && (path.FallThrough? ==> !SessionReturns(w, verify) && forall exn :: !SessionRaises(w, verify, exn))
  {
    var (trace, outcome) := Restore(w, saved, verify, client);
    assert outcome == SessionOutcome(w, verify);
    hide Restore;
  }

  // A login that works is returned: if the last attempt succeeded -- and was the check, where the
  // session was to be checked -- the call returns its client, the session being on disk, exactly if
  // the session could be written.
  lemma SuccessReturnsExactly(w: World, verify: bool, client: nat)
    ensures var r := Authenticate(w, verify, client);
      r.trace != [] && Last(r).outcome == Fine ==>
        && (r.result == Returned(Last(r).client) <==> if Last(r).client == client then w.dumpOk else w.freshDumpOk)
        && (r.written <==> r.result == Returned(Last(r).client))
        && (verify && Last(r).client == client ==> Last(r).Check? || Last(r).withCode)
  {
    AttemptsExactly(w, verify, client);
    OutcomeExactly(w, verify, client);
    ProtocolIsBounded(w, verify, client);
    hide Authenticate;
    LastAttemptExactly(w, verify, client);
  }

  lemma LastAttemptExactly(w: World, verify: bool, client: nat)
    ensures var trace := Attempts(w, verify, client);
      trace != [] && trace[|trace| - 1].outcome == Fine ==>
        && var last := trace[|trace| - 1];
        && (last.client == client || last.client == client + 1)
        && (if last.client == client
            then (SessionReturns(w, verify) <==> w.dumpOk) && (verify ==> last.Check? || last.withCode)
            else (FreshReturns(w, verify) <==> w.freshDumpOk))
  {
  }
}
