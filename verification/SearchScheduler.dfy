// The debounced search of the direct-message page (frontend/src/pages/directSearchScheduler.ts).
//
// Calls of `schedule` and `cancelPending` and expiries of timers interleave freely.  The
// controller of the job with token `k` is entry `k - 1` of `aborted`; a timer is a number.
module SearchScheduler {
  import opened Options
  import opened Runs

  datatype Scheduler = Scheduler(timer: Option<nat>, controller: Option<nat>, latestToken: nat)

  datatype Job = Job(token: nat, query: string, controller: nat)

  // `timers` are the timers set and neither cleared nor expired; `fired` the tokens of the jobs
  // whose callback has run, oldest first.
  datatype System = System(
    scheduler: Scheduler, aborted: seq<bool>, timers: map<nat, Job>, nextTimer: nat, fired: seq<nat>)

  datatype Action = Schedule(query: string, immediate: bool) | Cancel | Expire(timer: nat)

  function Cancelled(s: System): System {
    var timers := match s.scheduler.timer case None => s.timers case Some(t) => s.timers - {t};
    var aborted := match s.scheduler.controller
                   case None => s.aborted
                   case Some(c) => if c < |s.aborted| then s.aborted[c := true] else s.aborted;
    s.(scheduler := s.scheduler.(timer := None, controller := None), timers := timers, aborted := aborted)
  }

  function Scheduled(s: System, query: string, immediate: bool): System {
    var c := Cancelled(s);
    var job := Job(c.scheduler.latestToken + 1, query, |c.aborted|);
    if immediate then
      c.(scheduler := Scheduler(None, Some(job.controller), job.token),
         aborted := c.aborted + [false], fired := c.fired + [job.token])
    else
      c.(scheduler := Scheduler(Some(c.nextTimer), Some(job.controller), job.token),
         aborted := c.aborted + [false], timers := c.timers[c.nextTimer := job], nextTimer := c.nextTimer + 1)
  }

  function Step(s: System, a: Action): Option<System> {
    match a
    case Schedule(query, immediate) => Some(Scheduled(s, query, immediate))
    case Cancel => Some(Cancelled(s))
    case Expire(t) =>
      if t !in s.timers then None
      else Some(s.(scheduler := s.scheduler.(timer := None), timers := s.timers - {t},
                   fired := s.fired + [s.timers[t].token]))
  }

  const IDLE := System(Scheduler(None, None, 0), [], map[], 0, [])

  predicate IsAborted(s: System, token: nat) {
    1 <= token <= |s.aborted| && s.aborted[token - 1]
  }

  ghost predicate Sound(s: System) {
    var d := s.scheduler;
    && |s.aborted| == d.latestToken
    && (forall t :: t in s.timers ==>
          && d.timer == Some(t) && t < s.nextTimer
          && s.timers[t].token == d.latestToken && s.timers[t].controller == d.latestToken - 1
          && d.latestToken >= 1 && !IsAborted(s, d.latestToken)
          && d.latestToken !in s.fired)
    && d.controller == (if d.latestToken >= 1 && !IsAborted(s, d.latestToken) then Some(d.latestToken - 1) else None)
    && (forall token :: 1 <= token < d.latestToken ==> IsAborted(s, token))
    && (forall k :: 0 <= k < |s.fired| ==> 1 <= s.fired[k] <= d.latestToken)
    && (forall j, k :: 0 <= j < k < |s.fired| ==> s.fired[j] < s.fired[k])
  }

  lemma CancelKeepsSound(s: System)
    requires Sound(s)
    ensures Sound(Cancelled(s)) && Cancelled(s).timers == map[]
    ensures s.scheduler.latestToken >= 1 ==> IsAborted(Cancelled(s), s.scheduler.latestToken)
  {
    assert Cancelled(s).timers == map[];
    assert forall token :: IsAborted(s, token) ==> IsAborted(Cancelled(s), token);
  }

  lemma StepKeepsSound(s: System, a: Action, t: System)
    requires Sound(s) && Step(s, a) == Some(t)
    ensures Sound(t)
  {
    if a.Schedule? {
      CancelKeepsSound(s);
      var c := Cancelled(s);
      hide Cancelled;
      forall token | 1 <= token < t.scheduler.latestToken ensures IsAborted(t, token) {
        assert IsAborted(c, token);
      }
    } else if a.Cancel? {
      CancelKeepsSound(s);
    } else {
      assert t.timers == map[];
      assert forall token :: IsAborted(t, token) <==> IsAborted(s, token);
      assert forall k :: 0 <= k < |s.fired| ==> s.fired[k] in s.fired;
    }
  }

  lemma {:induction false} RunsStaySound(run: seq<Action>, s: System)
    requires Run(Step, IDLE, run) == Some(s)
    ensures Sound(s)
  {
    if run == [] {
    } else {
      hide Step, Sound;
      var u := Run(Step, IDLE, run[..|run| - 1]).value;
      RunsStaySound(run[..|run| - 1], u);
      StepKeepsSound(u, run[|run| - 1], s);
    }
  }

  // Whenever a callback runs, it is the latest job's, that job is not aborted, it has not run
  // before, and every older job is aborted.
  lemma OnlyLatestFires(run: seq<Action>, s: System, a: Action, t: System)
    requires Run(Step, IDLE, run) == Some(s) && Step(s, a) == Some(t)
    requires t.fired != s.fired
    ensures exists token ::
      && t.fired == s.fired + [token] && token !in s.fired
      && token == t.scheduler.latestToken && !IsAborted(t, token)
      && forall older :: 1 <= older < token ==> IsAborted(t, older)
  {
    RunsStaySound(run, s);
    StepKeepsSound(s, a, t);
    var token := t.scheduler.latestToken;
    assert t.fired == s.fired + [token];
    assert t.fired[|s.fired|] == token;
    assert forall k :: 0 <= k < |s.fired| ==> t.fired[k] == s.fired[k] && t.fired[k] < token;
  }

  // Over a whole run callbacks run in the order the jobs were scheduled, each at most once, and
  // every job but the latest is aborted.
  lemma FiringsAreOrdered(run: seq<Action>, s: System)
    requires Run(Step, IDLE, run) == Some(s)
    ensures forall j, k :: 0 <= j < k < |s.fired| ==> s.fired[j] < s.fired[k]
    ensures forall token :: 1 <= token < s.scheduler.latestToken ==> IsAborted(s, token)
  {
    RunsStaySound(run, s);
  }

  // The job's timer is the only one, and fires it.
  ghost predicate WaitsFor(s: System, timer: nat, token: nat, query: string) {
    && token > 0 && s.timers == map[timer := Job(token, query, token - 1)]
    && Step(s, Expire(timer)).Some? && Step(s, Expire(timer)).value.fired == s.fired + [token]
  }

  // What a call of `schedule` does: an immediate job's callback has run when it returns; of any other
  // a single timer is pending, and its callback runs when, and only when, that expires.
  lemma ScheduleExactly(run: seq<Action>, s: System, query: string, immediate: bool, t: System)
    requires Run(Step, IDLE, run) == Some(s) && Step(s, Schedule(query, immediate)) == Some(t)
    ensures var token := s.scheduler.latestToken + 1;
      && t.scheduler.latestToken == token && !IsAborted(t, token)
      && (forall older :: 1 <= older < token ==> IsAborted(t, older))
      && (immediate ==> t.fired == s.fired + [token] && t.timers == map[])
      && (!immediate ==>
            && t.fired == s.fired
            && exists x: nat :: WaitsFor(t, x, token, query))
  {
    RunsStaySound(run, s);
    CancelKeepsSound(s);
    StepKeepsSound(s, Schedule(query, immediate), t);
    if !immediate {
      var x := Cancelled(s).nextTimer;
      assert WaitsFor(t, x, s.scheduler.latestToken + 1, query);
    }
    hide Cancelled;
  }

  // What `cancelPending` does: no timer is left, the latest job is aborted, and no callback runs.
  lemma CancelExactly(run: seq<Action>, s: System, t: System)
    requires Run(Step, IDLE, run) == Some(s) && Step(s, Cancel) == Some(t)
    ensures t.timers == map[] && t.fired == s.fired && t.scheduler.latestToken == s.scheduler.latestToken
    ensures forall token :: 1 <= token <= s.scheduler.latestToken ==> IsAborted(t, token)
  {
    RunsStaySound(run, s);
    CancelKeepsSound(s);
    StepKeepsSound(s, Cancel, t);
    hide IsAborted;
    forall token | 1 <= token <= s.scheduler.latestToken ensures IsAborted(t, token) {
      if token < s.scheduler.latestToken {
        AbortStays(s, Cancel, t, token);
      }
    }
  }

  lemma AbortStays(s: System, a: Action, t: System, token: nat)
    requires IsAborted(s, token) && Step(s, a) == Some(t)
    ensures IsAborted(t, token)
  {
  }

  // A job aborted before its callback has run -- by cancelPending or by a newer job -- never runs.
  lemma {:induction false} AbortedJobNeverFires(before: seq<Action>, s: System, run: seq<Action>, t: System, token: nat)
    requires Run(Step, IDLE, before) == Some(s) && IsAborted(s, token) && token !in s.fired
    requires Run(Step, s, run) == Some(t)
    ensures IsAborted(t, token) && token !in t.fired
  {
    if run == [] {
    } else {
      var u := Run(Step, s, run[..|run| - 1]).value;
      var a := run[|run| - 1];
      AbortedJobNeverFires(before, s, run[..|run| - 1], u, token);
      AbortStays(u, a, t, token);
      RunConcat(Step, IDLE, before, run[..|run| - 1]);
      hide Step, IsAborted;
      if t.fired != u.fired {
        OnlyLatestFires(before + run[..|run| - 1], u, a, t);
      }
    }
  }

  // ---- the object ----

  class DirectSearchScheduler {
    var timer: Option<nat>
    var controller: Option<nat>
    var latestToken: nat
    // the controllers and timers of the page
    var aborted: seq<bool>
    var timers: map<nat, Job>
    var nextTimer: nat
    ghost var fired: seq<nat>

    ghost function View(): System
      reads this
    {
      System(Scheduler(timer, controller, latestToken), aborted, timers, nextTimer, fired)
    }

    ghost predicate Valid()
      reads this
    {
      controller.Some? ==> controller.value < |aborted|
    }

    constructor ()
      ensures Valid() && View() == IDLE
    {
      timer := None;
      controller := None;
      latestToken := 0;
      aborted := [];
      timers := map[];
      nextTimer := 0;
      fired := [];
    }

    method Schedule(query: string, immediate: bool) returns (job: Job)
      requires Valid()
      modifies this
      ensures Valid()
      ensures View() == Scheduled(old(View()), query, immediate)
      ensures job == Job(old(latestToken) + 1, query, |old(aborted)|)
    {
      CancelPending();
      var index := |aborted|;
      aborted := aborted + [false];
      latestToken := latestToken + 1;
      job := Job(latestToken, query, index);
      controller := Some(index);
      if immediate {
        Fire(job);
      } else {
        timer := Some(nextTimer);
        timers := timers[nextTimer := job];
        nextTimer := nextTimer + 1;
      }
    }

    // The closure `run`.
    method Fire(job: Job)
      modifies this`timer, this`fired
      ensures timer == None && fired == old(fired) + [job.token]
    {
      timer := None;
      fired := fired + [job.token];
    }

    // The page's timer `t` goes off.
    method Expire(t: nat)
      requires Valid() && t in timers
      modifies this
      ensures Valid()
      ensures Step(old(View()), Action.Expire(t)) == Some(View())
    {
      var job := timers[t];
      timers := timers - {t};
      Fire(job);
    }

    method CancelPending()
      requires Valid()
      modifies this
      ensures Valid() && View() == Cancelled(old(View()))
    {
      if timer.Some? {
        timers := timers - {timer.value};
        timer := None;
      }
      if controller.Some? {
        aborted := aborted[controller.value := true];
        controller := None;
      }
    }

    method IsLatest(token: nat) returns (latest: bool)
      ensures latest == (token == latestToken)
    {
      latest := token == latestToken;
    }
  }
}
