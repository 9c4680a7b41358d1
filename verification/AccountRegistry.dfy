// The maps of accounts, clients and statuses (backend/state.py) and what login, two-factor codes,
// relogin and logout make of them (backend/services_focused/account_auth.py and relogin.py).
module AccountRegistry {
  import opened Options
  import opened LoginProtocol
  import Retrying = ReloginRetry
  import Runs

  // The statuses that are ever stored; an account without one reads "idle".
  datatype Status = Active | Error

  // `totp`: the account has a TOTP secret.
  datatype Account = Account(username: string, totp: bool)

  // `pending`: clients waiting for a two-factor code, by username.  A client object is its number;
  // `next` have been created so far.
  datatype Registry = Registry(
    accounts: map<string, Account>,
    clients: map<string, nat>,
    statuses: map<string, Status>,
    pending: map<string, nat>,
    next: nat)

  datatype Reply = LoggedIn(id: string) | NeedsCode(id: string) | Removed(id: string) | Unknown | Refused | Failed

  datatype Change = Change(registry: Registry, reply: Reply)

  // After a restart the accounts are read back from their file; nothing else is.
  predicate Initial(r: Registry) {
    r.clients == map[] && r.statuses == map[] && r.pending == map[]
  }

  // activate_account_client
  function Activate(r: Registry, id: string, client: nat): Registry {
    r.(clients := r.clients[id := client], statuses := r.statuses[id := Active])
  }

  function WithoutAccount(r: Registry, id: string): Registry {
    r.(accounts := r.accounts - {id})
  }

  function Username(r: Registry, id: string): string {
    if id in r.accounts then r.accounts[id].username else ""
  }

  // username.lstrip("@")
  function Stripped(username: string): (name: string)
    ensures name != "" ==> name[0] != '@'
    ensures !AtName(username) ==> name == username
  {
    if AtName(username) then Stripped(username[1..]) else username
  }

  predicate AtName(username: string) {
    username != "" && username[0] == '@'
  }

  // A possible answer of find_account_id_by_username: the first match in whatever order the
  // accounts come.
  predicate IsFound(r: Registry, username: string, found: Option<string>) {
    match found
    case Some(id) => id in r.accounts && r.accounts[id].username == Stripped(username)
    case None => forall id :: id in r.accounts ==> r.accounts[id].username != Stripped(username)
  }

  predicate Unused(r: Registry, id: string) {
    id !in r.accounts && id !in r.clients && id !in r.statuses
  }

  // ---- login ----

  function Entered(r: Registry, id: string, username: string, totp: bool, report: Report): Registry {
    r.(accounts := r.accounts[id := Account(username, totp)],
       pending := Remembered(r.pending, username, report),
       next := r.next + 2)
  }

  function WithCode(r: Registry, username: string, c: Completion): CodeLogin {
    CompleteCode(r.pending, r.next, username, c)
  }

  function AfterCode(r: Registry, code: CodeLogin): Registry {
    r.(pending := code.pending, next := code.clients)
  }

  // login_account, once `found` has been looked up and `report` is how the protocol ends.
  function Conclude(r: Registry, id: string, username: string, totp: bool, report: Report, c: Completion): Change {
    var entered := Entered(r, id, username, totp, report);
    if report.result.Returned? then Change(Activate(entered, id, report.result.client), LoggedIn(id))
    else if report.result.exn != TwoFactorRequired then Change(WithoutAccount(entered, id), Failed)
    else if !totp then Change(entered, NeedsCode(id))
    else if !c.codeOk then Change(WithoutAccount(entered, id), Failed)
    else
      var code := WithCode(entered, username, c);
      if code.result.Some? then Change(Activate(AfterCode(entered, code), id, code.result.value), LoggedIn(id))
      else Change(WithoutAccount(AfterCode(entered, code), id), Failed)
  }

  function LoginResult(
    r: Registry, username: string, totp: bool, found: Option<string>, newId: string,
    w: World, verify: bool, c: Completion): Change
  {
    if found.Some? && found.value in r.clients then Change(r, LoggedIn(found.value))
    else
      Conclude(r, if found.Some? then found.value else newId, username, totp, Authenticate(w, verify, r.next), c)
  }

  // complete_2fa_login_account
  function EnterCode(r: Registry, id: string, isTotp: bool, c: Completion): Change {
    if id !in r.accounts then Change(r, Unknown)
    else if isTotp && (!r.accounts[id].totp || !c.codeOk) then Change(r, Refused)
    else
      var code := WithCode(r, r.accounts[id].username, c);
      if code.result.Some? then Change(Activate(AfterCode(r, code), id, code.result.value), LoggedIn(id))
      else Change(AfterCode(r, code), Failed)
  }

  // ---- relogin ----

  function PopClient(r: Registry, id: string): Registry {
    r.(clients := r.clients - {id})
  }

  function AfterAttempts(r: Registry, username: string, reports: seq<Report>): Registry {
    r.(pending := Retrying.PendingAfter(r.pending, username, reports), next := r.next + 2 * |reports|)
  }

  // relogin_account_sync after `reports`, the attempts it made.
  function Relogged(r: Registry, id: string, reports: seq<Report>, client: Option<nat>): Registry {
    var tried := AfterAttempts(PopClient(r, id), Username(r, id), reports);
    if client.Some? then Activate(tried, id, client.value) else tried
  }

  // What the strategy makes of one relogin: how the world is at each attempt, how its exceptions
  // are classified, and whether the one that ends it is a ValueError.
  datatype Strategy = Strategy(
    worlds: seq<World>, verify: bool, classify: (nat, Raised) -> Retrying.Failure, valueError: bool)

  function TriesOf(r: Registry, s: Strategy): (t: Retrying.Tries)
    requires s.worlds != []
    ensures 1 <= t.calls <= |s.worlds|
  {
    var attempts := Retrying.AttemptsOf(Retrying.Reports(s.worlds, s.verify, r.next), s.classify);
    Retrying.RetryExactly(attempts);
    Retrying.Retry(attempts, 0)
  }

  function ReloginSync(r: Registry, id: string, s: Strategy): Registry
    requires s.worlds != []
  {
    var t := TriesOf(r, s);
    Relogged(r, id, Retrying.Reports(s.worlds, s.verify, r.next)[..t.calls], t.client)
  }

  // track_relogin_failure
  function TrackFailure(r: Registry, id: string): Registry {
    r.(statuses := r.statuses[id := Error])
  }

  // relogin_account_with_tracking
  function ReloginResult(r: Registry, id: string, s: Strategy): Change
    requires s.worlds != []
  {
    var after := ReloginSync(r, id, s);
    if TriesOf(r, s).client.Some? then Change(after, LoggedIn(id))
    else if s.valueError then Change(after, Failed)
    else Change(TrackFailure(after, id), Failed)
  }

  // ---- logout ----

  function Logout(r: Registry, id: string): Change {
    if id !in r.accounts then Change(r, Unknown)
    else
      Change(r.(accounts := r.accounts - {id}, clients := r.clients - {id}, statuses := r.statuses - {id}),
               Removed(id))
  }

  function LogoutAll(r: Registry, ids: seq<string>): Registry {
    if ids == [] then r else Logout(LogoutAll(r, ids[..|ids| - 1]), ids[|ids| - 1]).registry
  }

  // ---- runs ----

  datatype Action =
    | DoLogin(username: string, totp: bool, found: Option<string>, newId: string, w: World, verify: bool, c: Completion)
    | DoEnterCode(id: string, isTotp: bool, c: Completion)
    | DoRelogin(id: string, strategy: Strategy)
    | DoLogout(id: string)
    | DoBulkLogout(ids: seq<string>)

  ghost function Step(r: Registry, a: Action): Option<Registry> {
    match a
    case DoLogin(username, totp, found, newId, w, verify, c) =>
      if IsFound(r, username, found) && Unused(r, newId)
      then Some(LoginResult(r, username, totp, found, newId, w, verify, c).registry) else None
    case DoEnterCode(id, isTotp, c) => Some(EnterCode(r, id, isTotp, c).registry)
    case DoRelogin(id, s) =>
      if id in r.accounts && s.worlds != [] then Some(ReloginResult(r, id, s).registry) else None
    case DoLogout(id) => Some(Logout(r, id).registry)
    case DoBulkLogout(ids) => Some(LogoutAll(r, ids))
  }

  // What the dashboard's arithmetic relies on.
  ghost predicate Consistent(r: Registry) {
    && r.clients.Keys <= r.accounts.Keys
    && forall id :: id in r.statuses && r.statuses[id] == Error ==> id !in r.clients
  }

  // No client serves two accounts, nor one while it waits for another's code.
  ghost predicate Owned(r: Registry) {
    Apart(r.clients, r.pending, r.next)
  }

  ghost predicate Apart(clients: map<string, nat>, pending: map<string, nat>, next: nat) {
    && (forall a :: a in clients ==> clients[a] < next)
    && (forall u :: u in pending ==> pending[u] < next)
    && (forall a, b :: a in clients && b in clients && clients[a] == clients[b] ==> a == b)
    && (forall u, v :: u in pending && v in pending && pending[u] == pending[v] ==> u == v)
    && (forall a, u :: a in clients && u in pending ==> clients[a] != pending[u])
  }

  ghost predicate Free(r: Registry, client: nat) {
    Unheld(r.clients, r.pending, r.next, client)
  }

  ghost predicate Unheld(clients: map<string, nat>, pending: map<string, nat>, next: nat, client: nat) {
    && client < next
    && (forall a :: a in clients ==> clients[a] != client)
    && (forall u :: u in pending ==> pending[u] != client)
  }

  lemma PendingKeepsOwned(r: Registry, pending: map<string, nat>, username: string, next: nat)
    requires Owned(r) && r.next <= next && Retrying.AddsOwn(r.pending, pending, username, r.next, next)
    ensures Owned(r.(pending := pending, next := next))
    ensures forall c :: r.next <= c < next && (username in pending ==> pending[username] != c)
              ==> Free(r.(pending := pending, next := next), c)
  {
  }

  lemma ActivateKeepsOwned(r: Registry, id: string, client: nat)
    requires Owned(r) && Free(r, client)
    ensures Owned(Activate(r, id, client))
  {
  }

  lemma CodeKeepsOwned(r: Registry, username: string, c: Completion)
    requires Owned(r)
    ensures var code := WithCode(r, username, c);
      Owned(AfterCode(r, code)) && (code.result.Some? ==> Free(AfterCode(r, code), code.result.value))
  {
  }

  lemma EnteredKeepsOwned(r: Registry, id: string, username: string, totp: bool, report: Report)
    requires Owned(r) && OwnReport(report, r.next)
    ensures var entered := Entered(r, id, username, totp, report);
      Owned(entered) && (report.result.Returned? ==> Free(entered, report.result.client))
  {
    if report.pending == None {
      PendingKeepsOwned(r, r.pending, username, r.next + 2);
      assert Retrying.AddsOwn(r.pending, r.pending, username, r.next, r.next + 2);
      hide Retrying.AddsOwn;
      if report.result.Returned? {
        var c := report.result.client;
        assert c >= r.next;
      }
    } else {
      PendingKeepsOwned(r, r.pending[username := report.pending.value], username, r.next + 2);
    }
  }

  lemma DropKeepsOwned(r: Registry, id: string)
    requires Owned(r)
    ensures Owned(PopClient(r, id))
  {
  }

  lemma ConcludeKeepsOwned(r: Registry, id: string, username: string, totp: bool, report: Report, c: Completion)
    requires Owned(r) && OwnReport(report, r.next)
    ensures Owned(Conclude(r, id, username, totp, report, c).registry)
  {
    EnteredKeepsOwned(r, id, username, totp, report);
    var entered := Entered(r, id, username, totp, report);
    CodeKeepsOwned(entered, username, c);
    var code := WithCode(entered, username, c);
    hide Entered, OwnReport, Apart, Unheld, WithCode, AfterCode;
    if report.result.Returned? {
      ActivateKeepsOwned(entered, id, report.result.client);
    } else if code.result.Some? {
      ActivateKeepsOwned(AfterCode(entered, code), id, code.result.value);
    }
  }

  lemma EnterCodeKeepsOwned(r: Registry, id: string, isTotp: bool, c: Completion)
    requires Owned(r)
    ensures Owned(EnterCode(r, id, isTotp, c).registry)
  {
    if id in r.accounts {
      var username := r.accounts[id].username;
      CodeKeepsOwned(r, username, c);
      var code := WithCode(r, username, c);
      if code.result.Some? {
        ActivateKeepsOwned(AfterCode(r, code), id, code.result.value);
      }
      hide Apart, Unheld, WithCode, AfterCode, Activate;
    }
  }

  // The client a relogin succeeds with is new, and not the one of its attempts that was left
  // waiting for a code.
  lemma ReportsAreFree(r: Registry, id: string, reports: seq<Report>)
    requires Owned(r) && Retrying.OwnClients(reports, r.next)
    ensures Owned(Relogged(r, id, reports, None))
    ensures reports != [] && reports[|reports| - 1].result.Returned?
      ==> Free(Relogged(r, id, reports, None), reports[|reports| - 1].result.client)
  {
    var popped, username := PopClient(r, id), Username(r, id);
    DropKeepsOwned(r, id);
    PendingIsOwned(popped, username, reports);
    if reports != [] && reports[|reports| - 1].result.Returned? {
      LastIsFree(popped, username, reports);
    }
    hide Apart, Unheld, AfterAttempts, Retrying.OwnClients;
  }

  lemma PendingIsOwned(r: Registry, username: string, reports: seq<Report>)
    requires Owned(r) && Retrying.OwnClients(reports, r.next)
    ensures Owned(AfterAttempts(r, username, reports))
  {
    Retrying.PendingIsOwn(r.pending, username, reports, r.next);
    PendingKeepsOwned(r, Retrying.PendingAfter(r.pending, username, reports), username, r.next + 2 * |reports|);
    hide Apart, Retrying.PendingAfter, Retrying.OwnClients;
  }

  lemma LastIsFree(r: Registry, username: string, reports: seq<Report>)
    requires Owned(r) && Retrying.OwnClients(reports, r.next)
    requires reports != [] && reports[|reports| - 1].result.Returned?
    ensures Free(AfterAttempts(r, username, reports), reports[|reports| - 1].result.client)
  {
    var n := |reports| - 1;
    assert OwnReport(reports[n], r.next + 2 * n);
    Retrying.PendingIsOwn(r.pending, username, reports[..n], r.next);
    var pending := Retrying.PendingAfter(r.pending, username, reports[..n]);
    assert Retrying.PendingAfter(r.pending, username, reports) == pending;
    hide Retrying.PendingAfter, Retrying.OwnClients;
  }

  lemma ReloginKeepsOwned(r: Registry, id: string, s: Strategy)
    requires Owned(r) && s.worlds != []
    ensures Owned(ReloginResult(r, id, s).registry)
  {
    var t, reports := TriesOf(r, s), Retrying.Reports(s.worlds, s.verify, r.next);
    Retrying.RetryExactly(Retrying.AttemptsOf(reports, s.classify));
    Retrying.ReportsOwnClients(s.worlds, s.verify, r.next);
    var tried := reports[..t.calls];
    assert Retrying.OwnClients(tried, r.next);
    ReportsAreFree(r, id, tried);
    var failed := Relogged(r, id, tried, None);
    if t.client.Some? {
      assert tried[t.calls - 1].result == Returned(t.client.value);
      ActivateKeepsOwned(failed, id, t.client.value);
      assert ReloginSync(r, id, s) == Activate(failed, id, t.client.value);
    }
    hide Apart, Unheld, Retrying.Retry;
  }

  lemma {:induction false} LogoutAllKeeps(r: Registry, ids: seq<string>)
    ensures Owned(r) ==> Owned(LogoutAll(r, ids))
    ensures Consistent(r) ==> Consistent(LogoutAll(r, ids))
  {
    if ids == [] {
    } else {
      LogoutAllKeeps(r, ids[..|ids| - 1]);
      var before := LogoutAll(r, ids[..|ids| - 1]);
      if Owned(before) {
        DropKeepsOwned(before, ids[|ids| - 1]);
      }
    }
  }

  lemma StepKeepsOwned(r: Registry, a: Action)
    requires Owned(r) && Step(r, a).Some?
    ensures Owned(Step(r, a).value)
  {
    match a
    case DoLogin(username, totp, found, newId, w, verify, c) =>
      ClientsAreOwn(w, verify, r.next);
      var id := if found.Some? then found.value else newId;
      ConcludeKeepsOwned(r, id, username, totp, Authenticate(w, verify, r.next), c);
      hide Owned, Conclude, Authenticate;
    case DoEnterCode(id, isTotp, c) =>
      EnterCodeKeepsOwned(r, id, isTotp, c);
      hide Owned, EnterCode;
    case DoRelogin(id, s) =>
      ReloginKeepsOwned(r, id, s);
      hide Owned, ReloginResult;
    case DoLogout(id) =>
      DropKeepsOwned(r, id);
    case DoBulkLogout(ids) =>
      LogoutAllKeeps(r, ids);
  }

  lemma ConcludeKeepsConsistent(r: Registry, id: string, username: string, totp: bool, report: Report, c: Completion)
    requires Consistent(r) && id !in r.clients
    ensures Consistent(Conclude(r, id, username, totp, report, c).registry)
  {
    hide CompleteCode, Remembered;
  }

  // One relogin keeps the maps consistent exactly when the account is known or it fails ...
  lemma ReloginKeepsConsistent(r: Registry, id: string, s: Strategy)
    requires Consistent(r) && s.worlds != []
    ensures Consistent(ReloginResult(r, id, s).registry) <==> id in r.accounts || TriesOf(r, s).client == None
  {
    hide TriesOf, Retrying.Reports, Retrying.PendingAfter;
    var after := ReloginResult(r, id, s).registry;
    if id !in r.accounts && TriesOf(r, s).client.Some? {
      assert id in after.clients && id !in after.accounts;
    }
  }

  // ... so that every relogin does, however the world behaves, exactly when the account is known.
  lemma ReloginKeepsConsistentExactly(r: Registry, id: string)
    requires Consistent(r)
    ensures (forall s: Strategy | s.worlds != [] :: Consistent(ReloginResult(r, id, s).registry)) <==> id in r.accounts
  {
    if id in r.accounts {
      forall s: Strategy | s.worlds != [] ensures Consistent(ReloginResult(r, id, s).registry) {
        ReloginKeepsConsistent(r, id, s);
      }
    } else {
      var s := SmoothStrategy(r);
      ReloginKeepsConsistent(r, id, s);
    }
  }

  // A relogin without a session file, whose first login works.
  lemma SmoothStrategy(r: Registry) returns (s: Strategy)
    ensures s.worlds != [] && TriesOf(r, s).client.Some?
  {
    var w := World(None, true, true, true, Fine, Fine, true, true, true, Fine, true, true, true, true, Fine, true);
    s := Strategy([w], false, (_, _) => Retrying.Failure(false, false, 0.0, 0.0), false);
    var report := Authenticate(w, false, r.next);
    assert report.result == Returned(r.next + 1);
    var reports := Retrying.Reports([w], false, r.next);
    assert reports[0] == Authenticate(w, false, r.next + 2 * 0);
    hide Authenticate;
    assert Retrying.AttemptsOf(reports, s.classify)[0] == Retrying.Succeeds(r.next + 1);
  }

  lemma StepKeepsConsistent(r: Registry, a: Action)
    requires Consistent(r) && Step(r, a).Some?
    ensures Consistent(Step(r, a).value)
  {
    match a
    case DoLogin(username, totp, found, newId, w, verify, c) =>
      var id := if found.Some? then found.value else newId;
      if id !in r.clients {
        ConcludeKeepsConsistent(r, id, username, totp, Authenticate(w, verify, r.next), c);
      }
      hide Consistent, Conclude, Authenticate;
    case DoEnterCode(id, isTotp, c) =>
      hide CompleteCode;
    case DoRelogin(id, s) =>
      ReloginKeepsConsistent(r, id, s);
      hide Consistent, ReloginResult;
    case DoLogout(id) =>
    case DoBulkLogout(ids) =>
      LogoutAllKeeps(r, ids);
  }

  lemma {:induction false} RunKeepsConsistent(r: Registry, run: seq<Action>)
    requires Consistent(r) && Runs.Run(Step, r, run).Some?
    ensures Consistent(Runs.Run(Step, r, run).value)
  {
    if run == [] {
    } else {
      var n := |run| - 1;
      RunKeepsConsistent(r, run[..n]);
      StepKeepsConsistent(Runs.Run(Step, r, run[..n]).value, run[n]);
      hide Step, Consistent;
    }
  }

  lemma {:induction false} RunKeepsOwned(r: Registry, run: seq<Action>)
    requires Owned(r) && Runs.Run(Step, r, run).Some?
    ensures Owned(Runs.Run(Step, r, run).value)
  {
    if run == [] {
    } else {
      var n := |run| - 1;
      RunKeepsOwned(r, run[..n]);
      StepKeepsOwned(Runs.Run(Step, r, run[..n]).value, run[n]);
      hide Step, Owned;
    }
  }

  // Over every sequence of logins, codes, relogins of known accounts and logouts.
  lemma RunsStayConsistent(r: Registry, run: seq<Action>)
    requires Initial(r) && Runs.Run(Step, r, run).Some?
    ensures var end := Runs.Run(Step, r, run).value; Consistent(end) && Owned(end)
  {
    assert Consistent(r) && Owned(r);
    hide Step;
    RunKeepsConsistent(r, run);
    RunKeepsOwned(r, run);
  }

  // ---- the dashboard ----

  // get_account_status
  function Reported(r: Registry, id: string): Option<Status> {
    if id in r.clients then Some(Active) else if id in r.statuses then Some(r.statuses[id]) else None
  }

  function ErrorAccounts(r: Registry): set<string> {
    set id | id in r.accounts && id in r.statuses && r.statuses[id] == Error
  }

  function IdleAccounts(r: Registry): set<string> {
    set id | id in r.accounts && id !in r.clients && !(id in r.statuses && r.statuses[id] == Error)
  }

  // total - active - error, as the dashboard computes it
  function IdleCount(r: Registry): int {
    |r.accounts| - |r.clients| - |ErrorAccounts(r)|
  }

  lemma KeysCount<T>(m: map<string, T>)
    ensures |m| == |m.Keys|
  {
  }

  lemma SplitCount(a: set<string>, b: set<string>)
    ensures |a + b| == |a| + |b| - |a * b|
  {
  }

  lemma SubtractionIsExact(accounts: set<string>, clients: set<string>, errors: set<string>, idle: set<string>)
    requires errors <= accounts && idle == accounts - clients - errors
    ensures |accounts| - |clients| - |errors| == |idle| <==> clients <= accounts && errors !! clients
  {
    var known, unknown := accounts * clients, clients - accounts;
    assert accounts == (known + errors) + idle && (known + errors) * idle == {};
    SplitCount(known + errors, idle);
    SplitCount(known, errors);
    assert clients == known + unknown && known * unknown == {};
    SplitCount(known, unknown);
    assert |accounts| - |clients| - |errors| - |idle| == -|unknown| - |known * errors|;
    assert known * errors == errors * clients;
  }

  lemma AccountsPartition(r: Registry)
    ensures ErrorAccounts(r) <= r.accounts.Keys
    ensures IdleAccounts(r) == r.accounts.Keys - r.clients.Keys - ErrorAccounts(r)
  {
  }

  // The subtraction counts the accounts that have neither a client nor an error exactly when every
  // client belongs to a known account and no account in error has one.
  lemma IdleIsExactWhen(r: Registry)
    ensures IdleCount(r) == |IdleAccounts(r)|
       <==> r.clients.Keys <= r.accounts.Keys && ErrorAccounts(r) !! r.clients.Keys
  {
    KeysCount(r.accounts);
    KeysCount(r.clients);
    AccountsPartition(r);
    hide ErrorAccounts, IdleAccounts;
    SubtractionIsExact(r.accounts.Keys, r.clients.Keys, ErrorAccounts(r), IdleAccounts(r));
  }

  lemma ConsistentCountsExactly(r: Registry)
    requires Consistent(r)
    ensures IdleCount(r) == |IdleAccounts(r)|
  {
    IdleIsExactWhen(r);
    hide IdleCount, IdleAccounts;
  }

  // In every run the idle count is the number of accounts with neither, so never negative.
  lemma IdleCountsIdleAccounts(r: Registry, run: seq<Action>)
    requires Initial(r) && Runs.Run(Step, r, run).Some?
    ensures var end := Runs.Run(Step, r, run).value; IdleCount(end) == |IdleAccounts(end)| >= 0
  {
    hide Step, Consistent, IdleCount, IdleAccounts;
    RunsStayConsistent(r, run);
    ConsistentCountsExactly(Runs.Run(Step, r, run).value);
  }

  // A relogin that other operations overlap: whatever they do between its dropping the old client
  // and its storing the new one, the maps end consistent exactly if the account is still known
  // then; a failure is recorded consistently exactly if nobody has logged the account in meanwhile.
  lemma OverlappedReloginIsSafeExactly(r: Registry, id: string, between: seq<Action>, client: nat)
    requires Consistent(r) && Runs.Run(Step, PopClient(r, id), between).Some?
    ensures var m := Runs.Run(Step, PopClient(r, id), between).value;
      && (Consistent(Activate(m, id, client)) <==> id in m.accounts)
      && (Consistent(TrackFailure(m, id)) <==> id !in m.clients)
  {
    assert Consistent(PopClient(r, id));
    hide Step;
    RunKeepsConsistent(PopClient(r, id), between);
    var m := Runs.Run(Step, PopClient(r, id), between).value;
    hide Runs.Run;
    assert id in Activate(m, id, client).clients && Activate(m, id, client).accounts == m.accounts;
    assert TrackFailure(m, id).statuses[id] == Error && TrackFailure(m, id).clients == m.clients;
  }

  // What the dashboard then shows: one idle account too few if the account is gone, and less than
  // none exactly if there is no idle account to hide it.
  lemma OverlappedReloginCounts(r: Registry, id: string, between: seq<Action>, client: nat)
    requires Consistent(r) && Runs.Run(Step, PopClient(r, id), between).Some?
    ensures var m := Runs.Run(Step, PopClient(r, id), between).value;
      var after := Activate(m, id, client);
      && IdleCount(after) == |IdleAccounts(after)| - (if id in m.accounts then 0 else 1)
      && (IdleCount(after) < 0 <==> id !in m.accounts && IdleAccounts(m) == {})
  {
    assert Consistent(PopClient(r, id));
    RunKeepsConsistent(PopClient(r, id), between);
    hide *;
    ActivatingCounts(Runs.Run(Step, PopClient(r, id), between).value, id, client);
  }

  lemma ActivatingCounts(m: Registry, id: string, client: nat)
    requires Consistent(m)
    ensures var after := Activate(m, id, client);
      && IdleCount(after) == |IdleAccounts(after)| - (if id in m.accounts then 0 else 1)
      && (IdleCount(after) < 0 <==> id !in m.accounts && IdleAccounts(m) == {})
  {
    ConsistentCountsExactly(m);
    hide ErrorAccounts, IdleAccounts;
    assert |IdleAccounts(m)| == 0 <==> IdleAccounts(m) == {};
    if id in m.accounts {
      assert Consistent(Activate(m, id, client));
      ConsistentCountsExactly(Activate(m, id, client));
    } else {
      ActivatingUnknownCounts(m, id, client);
    }
    hide Consistent, Activate;
  }

  lemma ActivatingUnknownCounts(m: Registry, id: string, client: nat)
    requires id !in m.clients && id !in m.accounts
    ensures var after := Activate(m, id, client);
      IdleCount(after) == IdleCount(m) - 1 && IdleAccounts(after) == IdleAccounts(m)
  {
    SameAccounts(m, id, client);
    OneMoreClient(m.clients, id, client);
    hide ErrorAccounts, IdleAccounts;
  }

  lemma OneMoreClient(clients: map<string, nat>, id: string, client: nat)
    requires id !in clients
    ensures |clients[id := client]| == |clients| + 1
  {
    KeysCount(clients);
    KeysCount(clients[id := client]);
    assert clients[id := client].Keys == clients.Keys + {id};
  }

  lemma SameAccounts(m: Registry, id: string, client: nat)
    requires id !in m.accounts
    ensures ErrorAccounts(Activate(m, id, client)) == ErrorAccounts(m)
    ensures IdleAccounts(Activate(m, id, client)) == IdleAccounts(m)
  {
  }

  // ---- what a relogin, a login and a logout decide ----

  lemma ReloginClientIsNew(r: Registry, s: Strategy)
    requires s.worlds != []
    ensures TriesOf(r, s).client.Some? ==> TriesOf(r, s).client.value >= r.next
  {
    var t, reports := TriesOf(r, s), Retrying.Reports(s.worlds, s.verify, r.next);
    Retrying.RetryExactly(Retrying.AttemptsOf(reports, s.classify));
    Retrying.ReportsOwnClients(s.worlds, s.verify, r.next);
    assert OwnReport(reports[t.calls - 1], r.next + 2 * (t.calls - 1));
    hide Retrying.Retry;
  }

  lemma ReloggedIs(r: Registry, id: string, reports: seq<Report>, client: Option<nat>)
    ensures var after := Relogged(r, id, reports, client);
      && after.accounts == r.accounts
      && after.clients == (if client.Some? then r.clients[id := client.value] else r.clients - {id})
      && after.statuses == (if client.Some? then r.statuses[id := Active] else r.statuses)
  {
  }

  // An account with a client always reads active; without one it reads as was stored last, idle if
  // nothing was.
  lemma ReportedExactly(r: Registry, id: string)
    ensures id in r.clients ==> Reported(r, id) == Some(Active)
    ensures id !in r.clients ==> Reported(r, id) == if id in r.statuses then Some(r.statuses[id]) else None
  {
  }

  // A relogin touches its own account alone.  It ends with a new client and "active", or with no
  // client and "error" -- but a ValueError leaves the status as it was, so that an account without
  // a client may still be reported active.
  lemma ReloginDecides(r: Registry, id: string, s: Strategy)
    requires s.worlds != []
    ensures var after, client := ReloginResult(r, id, s).registry, TriesOf(r, s).client;
      && after.accounts == r.accounts
      && after.clients - {id} == r.clients - {id} && after.statuses - {id} == r.statuses - {id}
      && (client.Some? ==> id in after.clients && after.clients[id] == client.value >= r.next)
      && (client == None ==> id !in after.clients)
      && Reported(after, id) == (if client.Some? then Some(Active)
                                 else if !s.valueError then Some(Error)
                                 else if id in r.statuses then Some(r.statuses[id]) else None)
  {
    hide TriesOf, Retrying.Reports, Relogged;
    ReloginClientIsNew(r, s);
    var t := TriesOf(r, s);
    ReloggedIs(r, id, Retrying.Reports(s.worlds, s.verify, r.next)[..t.calls], t.client);
  }

  // How a login ends, by how the protocol ends and, where a code is needed, whether it can be made up
  // here: with the client that worked, waiting for a code, or with the account forgotten.  No other
  // account is touched.
  lemma LoginDecides(
    r: Registry, username: string, totp: bool, found: Option<string>, newId: string,
    w: World, verify: bool, c: Completion)
    requires found.Some? ==> found.value !in r.clients
    ensures var report := Authenticate(w, verify, r.next);
      var id := if found.Some? then found.value else newId;
      var login := LoginResult(r, username, totp, found, newId, w, verify, c);
      var after := login.registry;
      var needsCode := report.result == Escaped(TwoFactorRequired);
      var codeWorks := totp && c.codeOk && c.outcome == Fine && c.dumpOk;
      && login.reply == (if report.result.Returned? || (needsCode && codeWorks) then LoggedIn(id)
                         else if needsCode && !totp then NeedsCode(id) else Failed)
      && (login.reply == LoggedIn(id) ==>
            && after.accounts == r.accounts[id := Account(username, totp)]
            && after.statuses == r.statuses[id := Active]
            && report.trace != [] && after.clients == r.clients[id := Last(report).client])
      && (login.reply == NeedsCode(id) ==>
            && after.accounts == r.accounts[id := Account(username, totp)]
            && after.statuses == r.statuses && after.clients == r.clients
            && report.trace != [] && after.pending == r.pending[username := Last(report).client])
      && (login.reply == Failed ==>
            after.accounts == r.accounts - {id} && after.statuses == r.statuses && after.clients == r.clients)
  {
    PendingIsTheOneThatRaised(w, verify, r.next);
    ProtocolIsBounded(w, verify, r.next);
    hide Authenticate;
    var report := Authenticate(w, verify, r.next);
    var id := if found.Some? then found.value else newId;
    ConcludeDecides(r, id, username, totp, report, c);
    hide Conclude;
  }

  lemma ConcludeDecides(r: Registry, id: string, username: string, totp: bool, report: Report, c: Completion)
    requires report.pending.Some? <==> report.result == Escaped(TwoFactorRequired)
    ensures var login := Conclude(r, id, username, totp, report, c);
      var after := login.registry;
      var needsCode := report.result == Escaped(TwoFactorRequired);
      var codeWorks := totp && c.codeOk && c.outcome == Fine && c.dumpOk;
      && login.reply == (if report.result.Returned? || (needsCode && codeWorks) then LoggedIn(id)
                         else if needsCode && !totp then NeedsCode(id) else Failed)
      && (login.reply == LoggedIn(id) ==>
            && after.accounts == r.accounts[id := Account(username, totp)]
            && after.statuses == r.statuses[id := Active]
            && after.clients
               == r.clients[id := if needsCode then report.pending.value else report.result.client])
      && (login.reply == NeedsCode(id) ==>
            && after.accounts == r.accounts[id := Account(username, totp)]
            && after.statuses == r.statuses && after.clients == r.clients
            && after.pending == r.pending[username := report.pending.value])
      && (login.reply == Failed ==>
            after.accounts == r.accounts - {id} && after.statuses == r.statuses && after.clients == r.clients)
  {
    assert r.accounts[id := Account(username, totp)] - {id} == r.accounts - {id};
  }

  // How the entry of a code ends: it is used on the client that waits for it, or on a new one; either
  // way none waits any more.
  lemma CodeDecides(r: Registry, id: string, isTotp: bool, c: Completion)
    ensures var entry := EnterCode(r, id, isTotp, c);
      var after, username := entry.registry, Username(r, id);
      var refused := id in r.accounts && isTotp && !(r.accounts[id].totp && c.codeOk);
      var waiting := username in r.pending;
      && (entry.reply == Unknown <==> id !in r.accounts)
      && (entry.reply == Refused <==> refused)
      && (entry.reply == LoggedIn(id) <==>
            id in r.accounts && !refused && (waiting || c.clientOk) && c.outcome == Fine && c.dumpOk)
      && (entry.reply == Unknown || entry.reply == Refused ==> after == r)
      && after.accounts == r.accounts
      && (id in r.accounts && !refused ==> after.pending == r.pending - {username})
      && (if entry.reply == LoggedIn(id)
          then after.clients == r.clients[id := if waiting then r.pending[username] else r.next]
               && after.statuses == r.statuses[id := Active]
          else after.clients == r.clients && after.statuses == r.statuses)
  {
  }

  // Leading "@"s are taken off a name, and nothing else.
  lemma {:induction false} StripsLeadingAts(n: nat, name: string)
    requires !AtName(name)
    ensures Stripped(seq(n, _ => '@') + name) == name
    decreases n
  {
    var ats := seq(n, _ => '@');
    if n == 0 {
      assert ats + name == name;
    } else {
      StripsLeadingAts(n - 1, name);
      assert (ats + name)[1..] == seq(n - 1, _ => '@') + name;
      assert AtName(ats + name);
    }
  }

  lemma FoundIsUnique(r: Registry, username: string, id: string, found: Option<string>)
    requires UniqueNames(r) && id in r.accounts && r.accounts[id].username == username
    requires IsFound(r, username, found)
    ensures !AtName(username) ==> found == Some(id)
    ensures AtName(username) ==> found != Some(id)
  {
  }

  ghost predicate UniqueNames(r: Registry) {
    forall a, b :: a in r.accounts && b in r.accounts && r.accounts[a].username == r.accounts[b].username ==> a == b
  }

  // After a login, the same login again answers at once and changes nothing -- exactly when the
  // name was given without a leading "@".  The name is stored as given but looked up without it.
  lemma LoginAgainChangesNothingExactly(
    r: Registry, id: string, username: string, totp: bool, found: Option<string>, newId: string,
    w: World, verify: bool, c: Completion)
    requires id in r.accounts && r.accounts[id].username == username && id in r.clients && UniqueNames(r)
    requires IsFound(r, username, found) && Unused(r, newId)
    ensures LoginResult(r, username, totp, found, newId, w, verify, c) == Change(r, LoggedIn(id)) <==> !AtName(username)
  {
    FoundIsUnique(r, username, id, found);
    hide Authenticate, CompleteCode, Remembered;
    if found.Some? && found.value == id {
    } else if found.Some? && found.value in r.clients {
      assert LoginResult(r, username, totp, found, newId, w, verify, c).reply == LoggedIn(found.value);
    }
  }

  // Names stay unique over every run whose logins give them without "@".
  lemma {:induction false} NamesStayUnique(r: Registry, run: seq<Action>)
    requires UniqueNames(r) && Runs.Run(Step, r, run).Some?
    requires forall k :: 0 <= k < |run| && run[k].DoLogin? ==> !AtName(run[k].username)
    ensures UniqueNames(Runs.Run(Step, r, run).value)
  {
    if run == [] {
    } else {
      var n := |run| - 1;
      NamesStayUnique(r, run[..n]);
      StepKeepsNamesUnique(Runs.Run(Step, r, run[..n]).value, run[n]);
      hide Step, UniqueNames;
    }
  }

  lemma ConcludeTouches(r: Registry, id: string, username: string, totp: bool, report: Report, c: Completion)
    ensures var after := Conclude(r, id, username, totp, report, c).registry;
      && (after.accounts == r.accounts[id := Account(username, totp)] || after.accounts == r.accounts - {id})
      && after.pending - {username} == r.pending - {username}
  {
    var entered := Entered(r, id, username, totp, report);
    var code := WithCode(entered, username, c);
    EnteredTouches(r, id, username, totp, report);
    CodeTouches(entered, username, c);
    hide Entered, AfterCode, WithCode;
  }

  lemma EnteredTouches(r: Registry, id: string, username: string, totp: bool, report: Report)
    ensures var entered := Entered(r, id, username, totp, report);
      && entered.accounts == r.accounts[id := Account(username, totp)]
      && entered.accounts - {id} == r.accounts - {id}
      && entered.pending - {username} == r.pending - {username}
  {
  }

  lemma CodeTouches(r: Registry, username: string, c: Completion)
    ensures var after := AfterCode(r, WithCode(r, username, c));
      after.accounts == r.accounts && after.pending - {username} == r.pending - {username}
  {
  }

  lemma StepKeepsNamesUnique(r: Registry, a: Action)
    requires UniqueNames(r) && Step(r, a).Some? && (a.DoLogin? ==> !AtName(a.username))
    ensures UniqueNames(Step(r, a).value)
  {
    hide Authenticate, Conclude, CompleteCode, ReloginResult;
    match a
    case DoLogin(username, totp, found, newId, w, verify, c) =>
      var id := if found.Some? then found.value else newId;
      ConcludeTouches(r, id, username, totp, Authenticate(w, verify, r.next), c);
    case DoEnterCode(_, _, _) =>
    case DoRelogin(id, s) =>
      ReloginDecides(r, id, s);
    case DoLogout(_) =>
    case DoBulkLogout(ids) =>
      LogoutAllIs(r, ids);
  }

  function Listed(ids: seq<string>): set<string> {
    if ids == [] then {} else Listed(ids[..|ids| - 1]) + {ids[|ids| - 1]}
  }

  lemma {:induction false} ListedIs(ids: seq<string>, id: string)
    ensures id in Listed(ids) <==> id in ids
  {
    if ids == [] {
    } else {
      ListedIs(ids[..|ids| - 1], id);
      assert ids == ids[..|ids| - 1] + [ids[|ids| - 1]];
    }
  }

  lemma LogoutForgets(r: Registry, id: string)
    ensures var after := Logout(r, id).registry;
      && after.accounts == r.accounts - {id}
      && (Consistent(r) ==> after.clients == r.clients - {id})
      && after.statuses == (if id in r.accounts then r.statuses - {id} else r.statuses)
      && after.pending == r.pending && after.next == r.next
  {
  }

  // A bulk logout forgets exactly the listed accounts.
  lemma {:induction false} LogoutAllIs(r: Registry, ids: seq<string>)
    ensures var after := LogoutAll(r, ids);
      && after.accounts == r.accounts - Listed(ids)
      && (Consistent(r) ==> after.clients == r.clients - Listed(ids))
      && after.statuses == r.statuses - Listed(ids) * r.accounts.Keys
      && after.pending == r.pending && after.next == r.next
  {
    if ids == [] {
    } else {
      var n := |ids| - 1;
      LogoutAllIs(r, ids[..n]);
      LogoutAllKeeps(r, ids[..n]);
      LogoutForgets(LogoutAll(r, ids[..n]), ids[n]);
      hide Logout, Consistent;
    }
  }

  // The reply for the i-th id of a bulk logout.
  function LogoutReply(r: Registry, ids: seq<string>, i: nat): Reply
    requires i < |ids|
  {
    Logout(LogoutAll(r, ids[..i]), ids[i]).reply
  }

  // ... and it says "removed" for the first mention of an account and "not found" for the rest.
  lemma RepliesExactly(r: Registry, ids: seq<string>, i: nat)
    requires i < |ids|
    ensures LogoutReply(r, ids, i)
         == if ids[i] in r.accounts && ids[i] !in ids[..i] then Removed(ids[i]) else Unknown
  {
    LogoutAllIs(r, ids[..i]);
    ListedIs(ids[..i], ids[i]);
  }

  // ---- two-factor codes ----

  // The account waits for a code, and the client that asked for it waits with it.
  ghost predicate Waiting(r: Registry, id: string, username: string, client: nat) {
    && id in r.accounts && r.accounts[id].username == username
    && username in r.pending && r.pending[username] == client
  }

  // An action that is none of the account's nor of its username's business.
  ghost predicate Foreign(r: Registry, a: Action, id: string, username: string) {
    match a
    case DoLogin(name, _, found, _, _, _, _) => name != username && found != Some(id)
    case DoEnterCode(other, _, _) => Username(r, other) != username
    case DoRelogin(other, _) => Username(r, other) != username
    case DoLogout(other) => other != id
    case DoBulkLogout(ids) => id !in ids
  }

  lemma ReloginKeepsWaiting(r: Registry, other: string, s: Strategy, id: string, username: string, client: nat)
    requires Waiting(r, id, username, client) && Username(r, other) != username && s.worlds != []
    ensures Waiting(ReloginResult(r, other, s).registry, id, username, client)
  {
    var t, reports := TriesOf(r, s), Retrying.Reports(s.worlds, s.verify, r.next);
    Retrying.RetryExactly(Retrying.AttemptsOf(reports, s.classify));
    Retrying.ReportsOwnClients(s.worlds, s.verify, r.next);
    assert Retrying.OwnClients(reports[..t.calls], r.next);
    Retrying.PendingIsOwn(r.pending, Username(r, other), reports[..t.calls], r.next);
    hide Retrying.Retry, TriesOf, Retrying.PendingAfter, Retrying.Reports;
  }

  lemma StepKeepsWaiting(r: Registry, a: Action, id: string, username: string, client: nat)
    requires Waiting(r, id, username, client) && Step(r, a).Some? && Foreign(r, a, id, username)
    ensures Waiting(Step(r, a).value, id, username, client)
  {
    hide Authenticate, Conclude, ReloginResult;
    match a
    case DoLogin(name, totp, found, newId, w, verify, c) =>
      var other := if found.Some? then found.value else newId;
      ConcludeTouches(r, other, name, totp, Authenticate(w, verify, r.next), c);
      assert username in r.pending - {name};
    case DoEnterCode(_, _, _) =>
    case DoRelogin(other, s) => ReloginKeepsWaiting(r, other, s, id, username, client);
    case DoLogout(_) =>
    case DoBulkLogout(ids) =>
      LogoutAllIs(r, ids);
      ListedIs(ids, id);
  }

  lemma {:induction false} RunKeepsWaiting(r: Registry, run: seq<Action>, id: string, username: string, client: nat)
    requires Waiting(r, id, username, client) && Runs.Run(Step, r, run).Some?
    requires forall k: nat :: k < |run| ==> Foreign(Runs.At(Step, r, run, k), run[k], id, username)
    ensures Waiting(Runs.Run(Step, r, run).value, id, username, client)
  {
    hide Step, Foreign, Waiting;
    if run == [] {
    } else {
      var n := |run| - 1;
      var before := run[..n];
      forall k: nat | k < n ensures Foreign(Runs.At(Step, r, before, k), before[k], id, username) {
        assert before[..k] == run[..k];
        assert Foreign(Runs.At(Step, r, run, k), run[k], id, username);
      }
      RunKeepsWaiting(r, before, id, username, client);
      Runs.AtSteps(Step, r, run, n);
      assert Foreign(Runs.At(Step, r, run, n), run[n], id, username);
      StepKeepsWaiting(Runs.Run(Step, r, before).value, run[n], id, username, client);
    }
  }

  // However much else happens in between, the code the user types goes to the very client whose
  // login asked for it, and that client is the one the account gets.
  lemma CodeReachesTheClientThatAsked(
    r: Registry, username: string, found: Option<string>, newId: string, w: World, verify: bool, c: Completion,
    run: seq<Action>, typed: Completion)
    requires found.Some? ==> found.value !in r.clients
    requires var report := Authenticate(w, verify, r.next); report.result == Escaped(TwoFactorRequired)
    requires var login := LoginResult(r, username, false, found, newId, w, verify, c);
      && Runs.Run(Step, login.registry, run).Some? && login.reply.NeedsCode?
      && forall k: nat :: k < |run| ==>
           Foreign(Runs.At(Step, login.registry, run, k), run[k], login.reply.id, username)
    requires typed.outcome == Fine && typed.dumpOk
    ensures var report := Authenticate(w, verify, r.next);
      var login := LoginResult(r, username, false, found, newId, w, verify, c);
      var done := EnterCode(Runs.Run(Step, login.registry, run).value, login.reply.id, false, typed);
      && report.trace != [] && Last(report).outcome == Raise(TwoFactorRequired)
      && done.reply == LoggedIn(login.reply.id)
      && login.reply.id in done.registry.clients
      && done.registry.clients[login.reply.id] == Last(report).client
  {
    PendingIsTheOneThatRaised(w, verify, r.next);
    hide Authenticate;
    var report := Authenticate(w, verify, r.next);
    var login := LoginResult(r, username, false, found, newId, w, verify, c);
    assert Waiting(login.registry, login.reply.id, username, Last(report).client);
    RunKeepsWaiting(login.registry, run, login.reply.id, username, Last(report).client);
    hide LoginResult, Foreign, Step, Runs.Run;
  }
}
