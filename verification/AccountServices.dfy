// The account operations as they run on the shared maps: backend/services_focused/account_auth.py,
// relogin.py and dashboard.py, and the retry loop of backend/instagram_runtime/relogin.py.
module AccountServices {
  import opened Options
  import opened LoginProtocol
  import opened AccountRegistry
  import Retrying = ReloginRetry

  function Without(keys: seq<string>, id: string): seq<string> {
    if keys == [] then []
    else Without(keys[..|keys| - 1], id) + if keys[|keys| - 1] == id then [] else [keys[|keys| - 1]]
  }

  lemma {:induction false} WithoutIs(keys: seq<string>, id: string)
    ensures forall k :: k in Without(keys, id) <==> k in keys && k != id
    ensures Distinct(keys) ==> Distinct(Without(keys, id))
  {
    if keys == [] {
    } else {
      var n := |keys| - 1;
      WithoutIs(keys[..n], id);
      assert keys == keys[..n] + [keys[n]];
      assert Distinct(keys) ==> keys[n] !in keys[..n];
    }
  }

  class Accounts {
    const auth: AuthRuntime
    var order: seq<string>               // the keys of `accounts` in the order they were inserted
    var accounts: map<string, Account>
    var clients: map<string, nat>
    var statuses: map<string, Status>

    ghost function View(): Registry
      reads this, auth
    {
      Registry(accounts, clients, statuses, auth.pending, auth.clients)
    }

    ghost predicate Valid()
      reads this
    {
      Distinct(order) && forall id :: id in order <==> id in accounts
    }

    constructor (saved: map<string, Account>, order: seq<string>)
      requires Distinct(order) && forall id :: id in order <==> id in saved
      ensures fresh(auth) && Initial(View()) && accounts == saved && this.order == order && Valid()
    {
      auth := new AuthRuntime();
      this.order := order;
      accounts := saved;
      clients := map[];
      statuses := map[];
    }

    ghost predicate FirstMatch(k: nat, name: string)
      reads this
    {
      && k < |order| && order[k] in accounts && accounts[order[k]].username == name
      && forall i :: 0 <= i < k ==> order[i] in accounts && accounts[order[i]].username != name
    }

    // The first account, in the order of insertion, that has the name.
    method FindAccountIdByUsername(username: string) returns (found: Option<string>)
      requires Valid()
      ensures IsFound(View(), username, found)
      ensures found.Some? ==>
        exists k: nat :: FirstMatch(k, Stripped(username)) && order[k] == found.value
    {
      var normalized := Stripped(username);
      for k := 0 to |order|
        invariant forall i :: 0 <= i < k ==> order[i] in accounts && accounts[order[i]].username != normalized
      {
        if accounts[order[k]].username == normalized {
          assert FirstMatch(k, normalized);
          return Some(order[k]);
        }
      }
      return None;
    }

    // _accounts[account_id] = meta: a new key goes to the end, an old one stays where it is.
    method SetAccount(id: string, account: Account)
      requires Valid()
      modifies this`accounts, this`order
      ensures Valid() && accounts == old(accounts)[id := account]
      ensures order == if id in old(accounts) then old(order) else old(order) + [id]
    {
      if id !in accounts {
        order := order + [id];
      }
      accounts := accounts[id := account];
    }

    method PopAccount(id: string)
      requires Valid()
      modifies this`accounts, this`order
      ensures Valid() && accounts == old(accounts) - {id} && order == Without(old(order), id)
    {
      WithoutIs(order, id);
      order := Without(order, id);
      accounts := accounts - {id};
    }

    method ActivateAccountClient(id: string, client: nat)
      modifies this`clients, this`statuses
      ensures View() == Activate(old(View()), id, client)
    {
      clients := clients[id := client];
      statuses := statuses[id := Active];
    }

    method LoginAccount(username: string, totp: bool, newId: string, w: World, verify: bool, c: Completion)
      returns (reply: Reply, ghost found: Option<string>)
      requires Valid()
      modifies this, auth
      ensures Valid()
      ensures IsFound(old(View()), username, found)
      ensures Change(View(), reply) == LoginResult(old(View()), username, totp, found, newId, w, verify, c)
    {
      hide Authenticate, CompleteCode, Distinct, IsFound, FirstMatch;
      var existing := FindAccountIdByUsername(username);
      found := existing;
      if existing.Some? && existing.value in clients {
        return LoggedIn(existing.value), existing;
      }
      var id := if existing.Some? then existing.value else newId;
      SetAccount(id, Account(username, totp));
      ghost var report := Authenticate(w, verify, auth.clients);
      var result := auth.CreateAuthenticatedClient(username, w, verify);
      assert View() == Entered(old(View()), id, username, totp, report);
      hide Entered;
      if result.Returned? {
        ActivateAccountClient(id, result.client);
        return LoggedIn(id), existing;
      }
      if result.exn == TwoFactorRequired {
        if !totp {
          return NeedsCode(id), existing;
        }
        if c.codeOk {
          var client := auth.Complete2faClient(username, c);
          if client.Some? {
            ActivateAccountClient(id, client.value);
            return LoggedIn(id), existing;
          }
        }
      }
      PopAccount(id);
      return Failed, existing;
    }

    method Complete2faLoginAccount(id: string, isTotp: bool, c: Completion) returns (reply: Reply)
      modifies this, auth
      ensures Change(View(), reply) == EnterCode(old(View()), id, isTotp, c)
    {
      hide CompleteCode;
      if id !in accounts {
        return Unknown;
      }
      var account := accounts[id];
      if isTotp {
        if !account.totp {
          return Refused;
        }
        if !c.codeOk {
          return Refused;
        }
      }
      var client := auth.Complete2faClient(account.username, c);
      if client == None {
        return Failed;
      }
      ActivateAccountClient(id, client.value);
      return LoggedIn(id);
    }

    // One call of the session-restore strategy.
    method Attempt(username: string, s: Strategy, attempt: nat, ghost first: nat) returns (outcome: Retrying.Attempt)
      requires attempt < |s.worlds| && auth.clients == first + 2 * attempt
      modifies auth
      ensures var reports := Retrying.Reports(s.worlds, s.verify, first);
        && outcome == Retrying.AttemptsOf(reports, s.classify)[attempt]
        && auth.pending == Remembered(old(auth.pending), username, reports[attempt])
      ensures auth.clients == first + 2 * (attempt + 1)
    {
      ghost var reports := Retrying.Reports(s.worlds, s.verify, first);
      assert reports[attempt] == Authenticate(s.worlds[attempt], s.verify, auth.clients);
      hide Authenticate, Remembered;
      var result := auth.CreateAuthenticatedClient(username, s.worlds[attempt], s.verify);
      match result
      case Returned(client) => return Retrying.Succeeds(client);
      case Escaped(exn) => return Retrying.Fails(s.classify(attempt, exn));
    }

    // The retry loop: the client it ends with, its calls of the strategy and its sleeps in between.
    method RetryLoop(username: string, s: Strategy) returns (tries: Retrying.Tries)
      requires s.worlds != []
      modifies auth
      ensures tries == TriesOf(old(View()), s)
      ensures auth.clients == old(auth.clients) + 2 * tries.calls
      ensures auth.pending == Retrying.PendingAfter(
          old(auth.pending), username, Retrying.Reports(s.worlds, s.verify, old(auth.clients))[..tries.calls])
    {
      hide Authenticate, Remembered, Retrying.AttemptsOf;
      ghost var first, pending := auth.clients, auth.pending;
      ghost var reports := Retrying.Reports(s.worlds, s.verify, first);
      ghost var attempts := Retrying.AttemptsOf(reports, s.classify);
      var sleeps: seq<real>, attempt := [], 0;
      while attempt < |s.worlds|
        invariant 0 <= attempt < |s.worlds|
        invariant auth.clients == first + 2 * attempt
        invariant auth.pending == Retrying.PendingAfter(pending, username, reports[..attempt])
        invariant var rest := Retrying.Retry(attempts, attempt);
          Retrying.Retry(attempts, 0) == rest.(sleeps := sleeps + rest.sleeps)
        decreases |s.worlds| - attempt
      {
        assert reports[..attempt + 1][..attempt] == reports[..attempt];
        var outcome := Attempt(username, s, attempt, first);
        hide Retrying.Reports;
        match outcome {
          case Succeeds(client) =>
            return Retrying.Tries(attempt + 1, sleeps, Some(client));
          case Fails(failure) =>
            if !(failure.retryable && attempt < |s.worlds| - 1) {
              return Retrying.Tries(attempt + 1, sleeps, None);
            }
            var delay := Retrying.ComputeRetryDelay(failure, attempt);
            ghost var rest := Retrying.Retry(attempts, attempt + 1);
            assert sleeps + ([delay] + rest.sleeps) == (sleeps + [delay]) + rest.sleeps;
            sleeps := sleeps + [delay];
        }
        attempt := attempt + 1;
      }
    }

    method ReloginAccountSync(id: string, s: Strategy) returns (client: Option<nat>)
      requires s.worlds != []
      modifies this, auth
      ensures client == TriesOf(old(View()), s).client
      ensures View() == ReloginSync(old(View()), id, s)
    {
      clients := clients - {id};
      var username := if id in accounts then accounts[id].username else "";
      var tries := RetryLoop(username, s);
      hide TriesOf, Retrying.PendingAfter, Retrying.Reports;
      if tries.client == None {
        return None;
      }
      ActivateAccountClient(id, tries.client.value);
      return tries.client;
    }

    method TrackReloginFailure(id: string)
      modifies this`statuses
      ensures View() == TrackFailure(old(View()), id)
    {
      statuses := statuses[id := Error];
    }

    method ReloginAccountWithTracking(id: string, s: Strategy) returns (reply: Reply)
      requires s.worlds != []
      modifies this, auth
      ensures Change(View(), reply) == ReloginResult(old(View()), id, s)
    {
      var client := ReloginAccountSync(id, s);
      hide TriesOf, ReloginSync;
      if client.Some? {
        return LoggedIn(id);
      }
      if !s.valueError {
        TrackReloginFailure(id);
      }
      return Failed;
    }

    method LogoutAccount(id: string) returns (reply: Reply)
      requires Valid()
      modifies this
      ensures Valid()
      ensures Change(View(), reply) == Logout(old(View()), id)
    {
      if id !in accounts {
        return Unknown;
      }
      clients := clients - {id};
      statuses := statuses - {id};
      PopAccount(id);
      return Removed(id);
    }

    method BulkLogoutAccounts(ids: seq<string>) returns (replies: seq<Reply>)
      requires Valid()
      modifies this
      ensures Valid()
      ensures View() == LogoutAll(old(View()), ids)
      ensures |replies| == |ids|
      ensures forall i: nat :: i < |ids| ==> replies[i] == LogoutReply(old(View()), ids, i)
    {
      replies := [];
      for i := 0 to |ids|
        invariant Valid() && View() == LogoutAll(old(View()), ids[..i])
        invariant |replies| == i
        invariant forall j: nat :: j < i ==> replies[j] == LogoutReply(old(View()), ids, j)
      {
        assert ids[..i + 1][..i] == ids[..i];
        hide Logout;
        var reply := LogoutAccount(ids[i]);
        replies := replies + [reply];
      }
      assert ids[..|ids|] == ids;
    }

    method CountErrors() returns (errors: nat)
      ensures errors == |ErrorAccounts(View())|
    {
      errors := 0;
      ghost var bad := ErrorAccounts(View());
      var left := accounts.Keys;
      while left != {}
        invariant left <= accounts.Keys
        invariant errors == |bad - left|
        decreases left
      {
        var id :| id in left;
        assert id in bad <==> id in statuses && statuses[id] == Error;
        if id in statuses && statuses[id] == Error {
          errors := errors + 1;
          assert bad - (left - {id}) == (bad - left) + {id};
        } else {
          assert bad - (left - {id}) == bad - left;
        }
        left := left - {id};
      }
      assert bad - left == bad;
    }

    // The account counts of get_dashboard_data.
    method DashboardCounts() returns (total: nat, active: nat, errors: nat, idle: int)
      ensures total == |accounts| && active == |clients| && errors == |ErrorAccounts(View())|
      ensures idle == IdleCount(View())
      ensures Consistent(View()) ==> idle == |IdleAccounts(View())|
    {
      total := |accounts|;
      active := |clients|;
      errors := CountErrors();
      idle := total - active - errors;
      hide ErrorAccounts, IdleAccounts;
      if Consistent(View()) {
        ConsistentCountsExactly(View());
      }
    }
  }
}
