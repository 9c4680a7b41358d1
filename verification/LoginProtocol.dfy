// `create_authenticated_client` (backend/instagram_runtime/auth.py): an exception-driven protocol of
// at most three logins over a saved session and a fresh client.
//
// `World` says how every call into the SDK, the file system and the TOTP generator comes out.
// Only logins and the session check raise the classified exceptions; anything else raises
// `OtherError`.
module LoginProtocol {
  import opened Options

  datatype Raised = LoginRequired | TwoFactorRequired | BadPassword | ChallengeRequired | OtherError

  datatype Outcome = Fine | Raise(exn: Raised)

  // The "uuids" entry of a saved session: absent, present but empty, or the device's.
  datatype Saved = NoEntry | Empty | Uuids(text: string)

  datatype World = World(
    session: Option<Saved>,        // the session file, if there is one
    clientOk: bool, loadOk: bool,  // new client, load_settings
    readOk: bool,                  // get_settings before the first login
    login: Outcome,                // session restore
    check: Outcome,                // account_info, when asked for
    resetOk: bool,                 // get_settings and set_settings({}) after LoginRequired
    setUuidsOk: bool, codeOk: bool,
    relogin: Outcome,              // with credentials, on the session's client
    dumpOk: bool,
    freshClientOk: bool, restoreUuidsOk: bool, freshCodeOk: bool,
    freshLogin: Outcome, freshDumpOk: bool)

  // What the account provider gets to see.  `uuids` is the saved fingerprint the client carries,
  // `None` one of its own making.
  datatype Event =
    | Login(client: nat, uuids: Option<string>, withCode: bool, outcome: Outcome)
    | Check(client: nat, outcome: Outcome)

  datatype Result = Returned(client: nat) | Escaped(exn: Raised)

  // `pending` is the client stored for a later two-factor code.
  datatype Report = Report(result: Result, trace: seq<Event>, pending: Option<nat>, written: bool)

  datatype SessionPath = Over(report: Report) | FallThrough(trace: seq<Event>, uuids: Option<string>)

  function Fingerprint(saved: Saved): Option<string> {
    if saved.Uuids? then Some(saved.text) else None
  }

  // The end of a path whose last attempt had `outcome`: the session is dumped, or the exception
  // goes on, leaving the client behind if it needs a code.
  function Concluded(client: nat, trace: seq<Event>, outcome: Outcome, dumpOk: bool): Report {
    match outcome
    case Fine =>
      if dumpOk then Report(Returned(client), trace, None, true)
      else Report(Escaped(OtherError), trace, None, false)
    case Raise(exn) => Report(Escaped(exn), trace, if exn == TwoFactorRequired then Some(client) else None, false)
  }

  predicate Hopeless(o: Outcome) {
    o == Raise(TwoFactorRequired) || o == Raise(BadPassword) || o == Raise(ChallengeRequired)
  }

  // The handler of LoginRequired: same device, no cookies, credentials.
  function Relogin(w: World, saved: Saved, client: nat, trace: seq<Event>): SessionPath {
    var captured := if w.readOk then Fingerprint(saved) else None;
    if !w.resetOk || saved == NoEntry || !w.setUuidsOk || !w.codeOk then FallThrough(trace, captured)
    else
      var trace' := trace + [Login(client, Fingerprint(saved), true, w.relogin)];
      if w.relogin == Fine || Hopeless(w.relogin) then Over(Concluded(client, trace', w.relogin, w.dumpOk))
      else FallThrough(trace', captured)
  }

  // The restored session logs in and, when asked to, checks itself; with what came of it.
  function Restore(w: World, saved: Saved, verify: bool, client: nat): (seq<Event>, Outcome) {
    var login := Login(client, Fingerprint(saved), false, w.login);
    if w.login == Fine && verify then ([login, Check(client, w.check)], w.check) else ([login], w.login)
  }

  function FromSession(w: World, saved: Saved, verify: bool, client: nat): SessionPath {
    if !w.clientOk || !w.loadOk then Over(Report(Escaped(OtherError), [], None, false))
    else
      var (trace, outcome) := Restore(w, saved, verify, client);
      if outcome == Fine || Hopeless(outcome) then Over(Concluded(client, trace, outcome, w.dumpOk))
      else if outcome == Raise(LoginRequired) then Relogin(w, saved, client, trace)
      else FallThrough(trace, if w.readOk then Fingerprint(saved) else None)
  }

  function Fresh(w: World, client: nat, trace: seq<Event>, captured: Option<string>): Report {
    if !w.freshClientOk || !w.freshCodeOk then Report(Escaped(OtherError), trace, None, false)
    else
      var uuids := if captured.Some? && w.restoreUuidsOk then captured else None;
      Concluded(client, trace + [Login(client, uuids, true, w.freshLogin)], w.freshLogin, w.freshDumpOk)
  }

  // The session's client is `client`, the fresh one `client + 1`.
  function Authenticate(w: World, verify: bool, client: nat): Report {
    if w.session == None then Fresh(w, client + 1, [], None)
    else
      match FromSession(w, w.session.value, verify, client)
      case Over(report) => report
      case FallThrough(trace, captured) => Fresh(w, client + 1, trace, captured)
  }

  // ---- what the protocol guarantees ----

  function LoginCount(trace: seq<Event>): nat {
    if trace == [] then 0
    else LoginCount(trace[..|trace| - 1]) + (if trace[|trace| - 1].Login? then 1 else 0)
  }

  predicate Hopeful(trace: seq<Event>) {
    forall k :: 0 <= k < |trace| ==> !Hopeless(trace[k].outcome)
  }

  // Attempts that leave room for another: none was hopeless, and at most `logins` were logins.
  ghost predicate Open(trace: seq<Event>, logins: nat) {
    LoginCount(trace) <= logins && Hopeful(trace)
  }

  // A report decided by its last attempt, or cut short by something local after an open trace.
  ghost predicate Decided(r: Report, logins: nat) {
    && LoginCount(r.trace) <= logins
    && (r.trace != [] ==> Hopeful(r.trace[..|r.trace| - 1]))
    && (r.written <==> r.result.Returned?)
    && (r.pending.Some? <==> r.result == Escaped(TwoFactorRequired))
    && (r.result.Returned? ==> r.trace != [] && Last(r).outcome == Fine && r.result.client == Last(r).client)
    && (r.pending.Some? ==> r.trace != [] && r.pending.value == Last(r).client)
    && (r.result.Escaped? && r.result.exn != OtherError ==>
          r.trace != [] && Last(r).outcome == Raise(r.result.exn))
  }

  function Last(r: Report): Event
    requires r.trace != []
  {
    r.trace[|r.trace| - 1]
  }

  // Every attempt is made by `client`, and its logins present `uuids`.
  ghost predicate MadeBy(trace: seq<Event>, client: nat, uuids: Option<string>) {
    forall k :: 0 <= k < |trace| ==> trace[k].client == client && (trace[k].Login? ==> trace[k].uuids == uuids)
  }

  lemma OneMoreEvent(trace: seq<Event>, e: Event)
    ensures LoginCount(trace + [e]) == LoginCount(trace) + if e.Login? then 1 else 0
    ensures (trace + [e])[..|trace|] == trace && (trace + [e])[|trace|] == e
    ensures Hopeful(trace) && !Hopeless(e.outcome) ==> Hopeful(trace + [e])
  {
    assert (trace + [e])[..|trace|] == trace;
  }

  lemma OneMoreAttempt(trace: seq<Event>, e: Event, logins: nat, dumpOk: bool)
    requires Open(trace, logins)
    ensures var n := logins + (if e.Login? then 1 else 0);
      && (!Hopeless(e.outcome) ==> Open(trace + [e], n))
      && Decided(Concluded(e.client, trace + [e], e.outcome, dumpOk), n)
  {
    OneMoreEvent(trace, e);
    hide LoginCount, Hopeful;
  }

  lemma ReloginIsSound(w: World, saved: Saved, client: nat, trace: seq<Event>)
    requires Open(trace, 1) && MadeBy(trace, client, Fingerprint(saved))
    ensures SoundPath(Relogin(w, saved, client, trace), w, saved, client)
  {
    hide Decided, MadeBy, LoginCount, Hopeful, Concluded, Fingerprint;
    var e := Login(client, Fingerprint(saved), true, w.relogin);
    OneMoreAttempt(trace, e, 1, w.dumpOk);
    OneMoreMadeBy(trace, e);
    TraceOf(client, trace + [e], w.relogin, w.dumpOk);
  }

  lemma OneMoreMadeBy(trace: seq<Event>, e: Event)
    requires e.Login?
    ensures MadeBy(trace, e.client, e.uuids) ==> MadeBy(trace + [e], e.client, e.uuids)
  {
  }

  lemma TraceOf(client: nat, trace: seq<Event>, outcome: Outcome, dumpOk: bool)
    ensures Concluded(client, trace, outcome, dumpOk).trace == trace
  {
  }

  // Two logins at most, all by the session's client and with the session's device.
  ghost predicate SoundPath(path: SessionPath, w: World, saved: Saved, client: nat) {
    match path
    case Over(r) => Decided(r, 2) && MadeBy(r.trace, client, Fingerprint(saved))
    case FallThrough(trace, captured) =>
      && Open(trace, 2) && MadeBy(trace, client, Fingerprint(saved))
      && captured == if w.readOk then Fingerprint(saved) else None
  }

  lemma RestoreIsSound(w: World, saved: Saved, verify: bool, client: nat)
    ensures var (trace, outcome) := Restore(w, saved, verify, client);
      && MadeBy(trace, client, Fingerprint(saved))
      && Decided(Concluded(client, trace, outcome, w.dumpOk), 1)
      && (!Hopeless(outcome) ==> Open(trace, 1))
  {
    var login, check := Login(client, Fingerprint(saved), false, w.login), Check(client, w.check);
    assert [] + [login] == [login] && [login] + [check] == [login, check];
    assert Open([], 0);
    hide Decided, Open, Concluded, Hopeful, LoginCount;
    OneMoreAttempt([], login, 0, w.dumpOk);
    if w.login == Fine && verify {
      OneMoreAttempt([login], check, 1, w.dumpOk);
    }
  }

  lemma SessionIsSound(w: World, saved: Saved, verify: bool, client: nat)
    ensures SoundPath(FromSession(w, saved, verify, client), w, saved, client)
  {
    RestoreIsSound(w, saved, verify, client);
    var (trace, outcome) := Restore(w, saved, verify, client);
    TraceOf(client, trace, outcome, w.dumpOk);
    if outcome == Raise(LoginRequired) {
      ReloginIsSound(w, saved, client, trace);
    }
    hide MadeBy, Hopeful, Concluded, Relogin, Restore, LoginCount;
  }

  lemma FreshIsSound(w: World, client: nat, trace: seq<Event>, captured: Option<string>, logins: nat)
    requires Open(trace, logins)
    ensures var r := Fresh(w, client, trace, captured);
      && Decided(r, logins + 1)
      && (r.trace == trace
          || r.trace == trace + [Login(client, if w.restoreUuidsOk then captured else None, true, w.freshLogin)])
  {
    var e := Login(client, if w.restoreUuidsOk then captured else None, true, w.freshLogin);
    OneMoreAttempt(trace, e, logins, w.freshDumpOk);
    TraceOf(client, trace + [e], w.freshLogin, w.freshDumpOk);
    if !w.freshClientOk || !w.freshCodeOk {
      hide LoginCount;
    } else {
      hide Decided, Concluded, Open;
    }
  }

  lemma AuthenticateIsDecided(w: World, verify: bool, client: nat)
    ensures Decided(Authenticate(w, verify, client), 3)
  {
    if w.session == None {
      FreshIsSound(w, client + 1, [], None, 0);
    } else {
      var saved := w.session.value;
      SessionIsSound(w, saved, verify, client);
      hide FromSession, Fresh;
      var path := FromSession(w, saved, verify, client);
      if path.FallThrough? {
        FreshIsSound(w, client + 1, path.trace, path.uuids, 2);
      }
    }
  }

  // Over all ways the world can behave: at most three logins; nothing is tried after a two-factor,
  // bad-password or challenge failure; a client that is returned is the one that just succeeded
  // and its session is on disk.
  lemma ProtocolIsBounded(w: World, verify: bool, client: nat)
    ensures var r := Authenticate(w, verify, client);
      && LoginCount(r.trace) <= 3
      && (forall k :: 0 <= k < |r.trace| && Hopeless(r.trace[k].outcome) ==> k == |r.trace| - 1)
      && (r.written <==> r.result.Returned?)
      && (r.result.Returned? ==> r.trace != [] && Last(r).outcome == Fine && Last(r).client == r.result.client)
  {
    AuthenticateIsDecided(w, verify, client);
    hide Authenticate;
    var r := Authenticate(w, verify, client);
    forall k | 0 <= k < |r.trace| - 1 ensures !Hopeless(r.trace[k].outcome) {
      assert r.trace[..|r.trace| - 1][k] == r.trace[k];
    }
  }

  // The client waiting for a two-factor code is stored exactly when the call ends with
  // TwoFactorRequired, and it is the client that raised it; any other classified failure that
  // escapes was likewise raised by the last thing tried.
  lemma PendingIsTheOneThatRaised(w: World, verify: bool, client: nat)
    ensures var r := Authenticate(w, verify, client);
      && (r.pending.Some? <==> r.result == Escaped(TwoFactorRequired))
      && (r.pending.Some? ==>
            r.trace != [] && Last(r).outcome == Raise(TwoFactorRequired) && Last(r).client == r.pending.value)
      && (r.result.Escaped? && r.result.exn != OtherError ==>
            r.trace != [] && Last(r).outcome == Raise(r.result.exn))
  {
    AuthenticateIsDecided(w, verify, client);
    hide Authenticate;
  }

  ghost predicate OwnReport(r: Report, client: nat) {
    && (r.result.Returned? ==> client <= r.result.client < client + 2 && r.pending == None)
    && (r.pending.Some? ==> client <= r.pending.value < client + 2)
  }

  // A client that is returned or left waiting is one of the two the call creates.
  lemma ClientsAreOwn(w: World, verify: bool, client: nat)
    ensures OwnReport(Authenticate(w, verify, client), client)
  {
    AuthenticateIsDecided(w, verify, client);
    if w.session == None {
      FreshIsSound(w, client + 1, [], None, 0);
    } else {
      var saved := w.session.value;
      SessionIsSound(w, saved, verify, client);
      hide FromSession, Fresh;
      var path := FromSession(w, saved, verify, client);
      if path.FallThrough? {
        FreshIsSound(w, client + 1, path.trace, path.uuids, 2);
      }
    }
  }

  ghost predicate KeepsDevice(trace: seq<Event>, uuids: string) {
    forall k :: 0 <= k < |trace| && trace[k].Login? ==> trace[k].uuids == Some(uuids)
  }

  // A fresh client gets to log in although there is a saved session: it can be made, and the session
  // neither logs in nor fails hopelessly, nor does the relogin on it, if there can be one.
  predicate FreshClientLogsIn(w: World, saved: Saved, verify: bool) {
    var outcome := if w.login == Fine && verify then w.check else w.login;
    && w.clientOk && w.loadOk && w.freshClientOk && w.freshCodeOk
    && outcome != Fine && !Hopeless(outcome)
    && (outcome == Raise(LoginRequired) ==>
          || !w.resetOk || saved == NoEntry || !w.setUuidsOk || !w.codeOk
          || (w.relogin != Fine && !Hopeless(w.relogin)))
  }

  lemma FallsThroughExactly(w: World, saved: Saved, verify: bool, client: nat)
    ensures FromSession(w, saved, verify, client).FallThrough? && w.freshClientOk && w.freshCodeOk
       <==> FreshClientLogsIn(w, saved, verify)
  {
    hide Concluded;
  }

  // With a saved device every login presents it, exactly unless a fresh client gets to log in although
  // the device could not be read from the session or put on the client.
  lemma DeviceIsKeptExactly(w: World, verify: bool, client: nat, uuids: string)
    requires w.session == Some(Uuids(uuids))
    ensures KeepsDevice(Authenticate(w, verify, client).trace, uuids)
       <==> (w.readOk && w.restoreUuidsOk) || !FreshClientLogsIn(w, Uuids(uuids), verify)
  {
    SessionIsSound(w, Uuids(uuids), verify, client);
    FallsThroughExactly(w, Uuids(uuids), verify, client);
    hide FromSession, FreshClientLogsIn;
    match FromSession(w, Uuids(uuids), verify, client)
    case Over(r) =>
    case FallThrough(t, captured) =>
      var uuids' := if captured.Some? && w.restoreUuidsOk then captured else None;
      var last := Login(client + 1, uuids', true, w.freshLogin);
      var trace := Authenticate(w, verify, client).trace;
      assert trace == if w.freshClientOk && w.freshCodeOk then t + [last] else t;
      hide Fresh, Authenticate;
      if trace != t {
        assert forall k :: 0 <= k < |t| ==> trace[k] == t[k];
        assert trace[|t|] == last;
      }
  }

  // ---- two-factor codes ----

  // How the calls of a code's login come out; `codeOk`: the generator, or the check of the code
  // the user typed.
  datatype Completion = Completion(codeOk: bool, clientOk: bool, outcome: Outcome, dumpOk: bool)

  function Remembered(pending: map<string, nat>, username: string, r: Report): map<string, nat> {
    if r.pending.Some? then pending[username := r.pending.value] else pending
  }

  datatype CodeLogin = CodeLogin(pending: map<string, nat>, clients: nat, result: Option<nat>)

  // complete_2fa_client: the waiting client is used up, whatever comes of it.
  function CompleteCode(pending: map<string, nat>, clients: nat, username: string, c: Completion): CodeLogin {
    var waiting := username in pending;
    var client := if waiting then pending[username] else clients;
    CodeLogin(pending - {username}, if waiting || !c.clientOk then clients else clients + 1,
              if (waiting || c.clientOk) && c.outcome == Fine && c.dumpOk then Some(client) else None)
  }

  // ---- the function as it runs ----

  // The clients waiting for a two-factor code (_pending_2fa_clients), the users whose session is
  // on disk because of this process, and every attempt so far.
  datatype State = State(pending: map<string, nat>, sessionFiles: set<string>, trace: seq<Event>)

  function Tried(s: State, events: seq<Event>): State {
    s.(trace := s.trace + events)
  }

  function Reported(s: State, username: string, r: Report): State {
    State(Remembered(s.pending, username, r),
          s.sessionFiles + (if r.written then {username} else {}),
          s.trace + r.trace)
  }

  class AuthRuntime {
    var pending: map<string, nat>
    var sessionFiles: set<string>
    var trace: seq<Event>
    var clients: nat                    // clients created so far

    ghost function View(): State
      reads this
    {
      State(pending, sessionFiles, trace)
    }

    constructor ()
      ensures View() == State(map[], {}, []) && clients == 0
    {
      pending := map[];
      sessionFiles := {};
      trace := [];
      clients := 0;
    }

    // The end of an attempt's path: dump_settings and return, or keep the client for its code and
    // raise.
    method Conclude(
      username: string, client: nat, outcome: Outcome, dumpOk: bool, ghost base: State, ghost events: seq<Event>)
      returns (result: Result)
      requires View() == Tried(base, events)
      modifies this`pending, this`sessionFiles
      ensures var r := Concluded(client, events, outcome, dumpOk);
              result == r.result && View() == Reported(base, username, r)
    {
      if outcome == Fine {
        if !dumpOk {
          return Escaped(OtherError);
        }
        sessionFiles := sessionFiles + {username};
        return Returned(client);
      }
      if outcome.exn == TwoFactorRequired {
        pending := pending[username := client];
      }
      return Escaped(outcome.exn);
    }

    // The handler of LoginRequired; `None`: fall through to a fresh login.
    method ReloginSession(
      username: string, w: World, saved: Saved, client: nat, ghost base: State, ghost earlier: seq<Event>)
      returns (result: Option<Result>)
      requires View() == Tried(base, earlier)
      modifies this`pending, this`sessionFiles, this`trace
      ensures match Relogin(w, saved, client, earlier)
              case Over(r) => result == Some(r.result) && View() == Reported(base, username, r)
              case FallThrough(t, _) => result == None && View() == Tried(base, t)
    {
      if !w.resetOk || saved == NoEntry || !w.setUuidsOk || !w.codeOk {
        return None;
      }
      ghost var events := earlier + [Login(client, Fingerprint(saved), true, w.relogin)];
      trace := trace + [Login(client, Fingerprint(saved), true, w.relogin)];
      assert trace == base.trace + events;
      if w.relogin == Fine || Hopeless(w.relogin) {
        var r := Conclude(username, client, w.relogin, w.dumpOk, base, events);
        return Some(r);
      }
      return None;
    }

    method TryRestore(w: World, saved: Saved, verify: bool, client: nat) returns (outcome: Outcome)
      modifies this`trace
      ensures var (events, o) := Restore(w, saved, verify, client);
              outcome == o && View() == Tried(old(View()), events)
    {
      trace := trace + [Login(client, Fingerprint(saved), false, w.login)];
      outcome := w.login;
      if outcome == Fine && verify {
        outcome := w.check;
        trace := trace + [Check(client, outcome)];
      }
    }

    // The path taken when a session file exists.
    method RestoreSession(username: string, w: World, saved: Saved, verify: bool, client: nat)
      returns (result: Option<Result>)
      modifies this`pending, this`sessionFiles, this`trace
      ensures match FromSession(w, saved, verify, client)
              case Over(r) => result == Some(r.result) && View() == Reported(old(View()), username, r)
              case FallThrough(t, _) => result == None && View() == Tried(old(View()), t)
    {
      ghost var base := View();
      assert base.trace + [] == base.trace;
      if !w.clientOk || !w.loadOk {
        return Some(Escaped(OtherError));
      }
      ghost var (events, _) := Restore(w, saved, verify, client);
      var outcome := TryRestore(w, saved, verify, client);
      hide Restore, Relogin, Concluded;
      if outcome == Fine || Hopeless(outcome) {
        var r := Conclude(username, client, outcome, w.dumpOk, base, events);
        return Some(r);
      }
      if outcome.exn == LoginRequired {
        result := ReloginSession(username, w, saved, client, base, events);
      } else {
        result := None;
      }
    }

    method LoginFresh(
      username: string, w: World, client: nat, savedUuids: Option<string>, ghost base: State,
      ghost earlier: seq<Event>)
      returns (result: Result)
      requires View() == Tried(base, earlier)
      modifies this`pending, this`sessionFiles, this`trace
      ensures var r := Fresh(w, client, earlier, savedUuids);
              result == r.result && View() == Reported(base, username, r)
    {
      if !w.freshClientOk {
        return Escaped(OtherError);
      }
      var uuids: Option<string> := None;
      if savedUuids.Some? {
        if w.restoreUuidsOk {
          uuids := savedUuids;
        }
      }
      if !w.freshCodeOk {
        return Escaped(OtherError);
      }
      trace := trace + [Login(client, uuids, true, w.freshLogin)];
      ghost var events := earlier + [Login(client, uuids, true, w.freshLogin)];
      assert trace == base.trace + events;
      hide Concluded;
      result := Conclude(username, client, w.freshLogin, w.freshDumpOk, base, events);
    }

    method CreateAuthenticatedClient(username: string, w: World, verify: bool) returns (result: Result)
      modifies this
      ensures var r := Authenticate(w, verify, old(clients));
              result == r.result && View() == Reported(old(View()), username, r)
      ensures clients == old(clients) + 2
    {
      ghost var base := View();
      var client := clients;
      clients := clients + 2;
      var savedUuids: Option<string> := None;
      ghost var events: seq<Event> := [];
      if w.session.Some? {
        var restored := RestoreSession(username, w, w.session.value, verify, client);
        SessionIsSound(w, w.session.value, verify, client);
        hide FromSession, Fresh, Reported, Open, MadeBy, Decided;
        if restored.Some? {
          return restored.value;
        }
        savedUuids := if w.readOk then Fingerprint(w.session.value) else None;
        events := FromSession(w, w.session.value, verify, client).trace;
      } else {
        assert base.trace + [] == base.trace;
      }
      result := LoginFresh(username, w, client + 1, savedUuids, base, events);
    }

    method Complete2faClient(username: string, c: Completion) returns (result: Option<nat>)
      modifies this`pending, this`clients, this`sessionFiles
      ensures var done := CompleteCode(old(pending), old(clients), username, c);
              pending == done.pending && clients == done.clients && result == done.result
      ensures sessionFiles == old(sessionFiles) + if result.Some? then {username} else {}
    {
      var client := clients;
      if username in pending {
        client := pending[username];
        pending := pending - {username};
      } else {
        if !c.clientOk {
          return None;
        }
        clients := clients + 1;
      }
      if c.outcome != Fine || !c.dumpOk {
        return None;
      }
      sessionFiles := sessionFiles + {username};
      return Some(client);
    }
  }
}
