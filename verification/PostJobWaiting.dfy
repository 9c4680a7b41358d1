// Who can wait for ever: what holds of the waiting workers of a job even when it is retried while it
// runs, and how a worker that is not trapped gets on.
module PostJobWaiting {
  import opened Options
  import opened Runs
  import opened JobStore
  import opened PostJobEngine
  import opened PostJobSafety
  import opened PostJobControl
  import opened PostJobRetry

  // If any job has this event, it is this one.
  ghost predicate Within(s: System, e: nat) {
    e < |s.store.events| && forall j :: j in s.store.pauseEvents && s.store.pauseEvents[j] == e ==> j == s.job
  }

  ghost predicate WaitsLoosely(s: System, pc: Pc) {
    match pc
    case TestEvent(e) => Within(s, e)
    case EnterWait(e) => Within(s, e)
    case Blocked(e) => Within(s, e) && !s.store.events[e]
    case _ => true
  }

  // The rows and workers belong together.
  ghost predicate Matched(s: System) {
    && s.job in s.store.jobs && |Rows(s)| == |s.ids| == |s.workers|
    && forall i :: 0 <= i < |s.ids| ==> Rows(s)[i].accountId == s.ids[i]
  }

  // What every run keeps, with or without retries.
  ghost predicate Loose(s: System) {
    && s.store.Valid() && Matched(s)
    && (forall e :: e in s.releases ==> e < |s.store.events|)
    && (s.runner != Joining ==> AllFinished(s))
    && forall i :: 0 <= i < |s.workers| ==> WaitsLoosely(s, s.workers[i].pc)
  }

  lemma ShapedIsLoose(s: System)
    requires Shaped(s)
    ensures Loose(s) && forall k :: 0 <= k < |s.workers| ==> !Trapped(s, k)
  {
    forall i | 0 <= i < |s.workers| ensures WaitsLoosely(s, s.workers[i].pc) && !Trapped(s, i) {
      assert WaitsSoundly(s, s.workers[i].pc);
    }
  }

  // An unset event that nobody can set any more: no job has it, and no thread is about to set it.
  ghost predicate Orphan(s: System, e: nat) {
    && e < |s.store.events| && !s.store.events[e] && e !in s.releases
    && forall j :: j in s.store.pauseEvents ==> s.store.pauseEvents[j] != e
  }

  ghost predicate Trapped(s: System, k: int)
    requires 0 <= k < |s.workers|
  {
    match s.workers[k].pc
    case TestEvent(e) => Orphan(s, e)
    case EnterWait(e) => Orphan(s, e)
    case Blocked(e) => Orphan(s, e)
    case _ => false
  }

  // ---- what every step keeps ----

  lemma OthersKeepWithin(s: System, a: Action, t: System, e: nat)
    requires Step(s, a) == Some(t) && !a.Work? && s.store.Valid() && Within(s, e)
    ensures Within(t, e)
    ensures t.store.events[e] ==> s.store.events[e] || a == Release(e)
  {
  }

  lemma WorkKeepsLoose(s: System, i: nat, c: Choice, t: System)
    requires Loose(s) && Step(s, Work(i, c)) == Some(t)
    ensures Loose(t)
  {
    WorkEffect(s, i, c, t);
    hide Step;
    assert t.store.events == s.store.events && t.store.pauseEvents == s.store.pauseEvents;
    assert s.workers[i].pc != Finished;
    WorkKeepsMatched(s, i, c, t);
    assert forall e :: Within(s, e) ==> Within(t, e);
    forall k | 0 <= k < |t.workers| ensures WaitsLoosely(t, t.workers[k].pc) {
      assert WaitsLoosely(s, s.workers[k].pc);
      if k == i {
        WorkerWaitsLoosely(s, i, c);
      }
    }
    hide AfterPc, WaitsLoosely;
  }

  lemma WorkKeepsMatched(s: System, i: nat, c: Choice, t: System)
    requires Matched(s) && Step(s, Work(i, c)) == Some(t)
    ensures Matched(t)
  {
    WorkEffect(s, i, c, t);
    hide Step, AfterPc;
  }

  lemma WorkerWaitsLoosely(s: System, i: nat, c: Choice)
    requires s.store.Valid() && i < |s.workers| && WaitsLoosely(s, s.workers[i].pc)
    requires AfterPc(s.workers[i].pc, s, c).Some?
    ensures WaitsLoosely(s, AfterPc(s.workers[i].pc, s, c).value)
  {
  }

  lemma OthersKeepLoose(s: System, a: Action, t: System)
    requires Loose(s) && Step(s, a) == Some(t) && !a.Work? && !a.Join?
    ensures Loose(t)
  {
    OthersLeaveRows(s, a, t);
    OthersKeepStore(s, a, t);
    ReleaseWakes(s, a, t);
    forall k | 0 <= k < |t.workers| ensures WaitsLoosely(t, t.workers[k].pc) {
      assert WaitsLoosely(s, s.workers[k].pc);
      var pc := s.workers[k].pc;
      if pc.TestEvent? || pc.EnterWait? || pc.Blocked? {
        OthersKeepWithin(s, a, t, pc.evt);
      }
      hide Step, Within;
    }
    hide Step, WaitsLoosely;
  }

  lemma ReleaseWakes(s: System, a: Action, t: System)
    requires Step(s, a) == Some(t) && !a.Work? && !a.Join?
    ensures a.Release? ==> forall k :: 0 <= k < |t.workers| ==> t.workers[k].pc != Blocked(a.evt)
  {
  }

  lemma JoinKeepsLoose(s: System, t: System)
    requires Loose(s) && Step(s, Join) == Some(t)
    ensures Loose(t) && t.ids == s.ids && t.job == s.job
  {
    assert Rows(t) == Rows(s) && t.workers == s.workers;
    assert AllFinished(s);
  }

  lemma RetryKeepsLoose(s: System, e: Event, t: System)
    requires Loose(s) && !e.Ordinary? && AnyStep(s, e) == Some(t)
    ensures Loose(t) && t.workers == s.workers && t.ids == s.ids && t.job == s.job && t.releases == s.releases
    ensures t.store.events == s.store.events
  {
    hide Step;
    assert forall e :: Within(s, e) ==> Within(t, e);
    forall k | 0 <= k < |t.workers| ensures WaitsLoosely(t, t.workers[k].pc) {
      assert WaitsLoosely(s, s.workers[k].pc);
    }
  }

  lemma StepKeepsLoose(s: System, e: Event, t: System)
    requires Loose(s) && AnyStep(s, e) == Some(t)
    ensures Loose(t) && t.ids == s.ids && t.job == s.job && |t.workers| == |s.workers|
  {
    hide Step, Loose;
    if !e.Ordinary? {
      RetryKeepsLoose(s, e, t);
    } else if e.action.Work? {
      WorkEffect(s, e.action.i, e.action.choice, t);
      WorkKeepsLoose(s, e.action.i, e.action.choice, t);
    } else if e.action.Join? {
      JoinKeepsWorkers(s, t);
      JoinKeepsLoose(s, t);
    } else {
      OthersLeaveRows(s, e.action, t);
      OthersKeepLoose(s, e.action, t);
    }
  }

  lemma {:induction false} RunKeepsLoose(s: System, run: seq<Event>, t: System)
    requires Loose(s) && Run(AnyStep, s, run) == Some(t)
    ensures Loose(t) && t.ids == s.ids && t.job == s.job && |t.workers| == |s.workers|
  {
    hide AnyStep, Loose;
    if run == [] {
    } else {
      var u := Run(AnyStep, s, run[..|run| - 1]).value;
      RunKeepsLoose(s, run[..|run| - 1], u);
      StepKeepsLoose(u, run[|run| - 1], t);
    }
  }

  // ---- an orphan stays one ----

  lemma PauseKeepsOrphan(s: System, j: string, t: System, x: nat)
    requires s.store.Valid() && Orphan(s, x) && Step(s, Pause(j)) == Some(t)
    ensures Orphan(t, x)
  {
  }

  // A thread takes over an event that some job has.
  lemma ReadsMapped(s: System, a: Action, t: System, x: nat)
    requires Step(s, a) == Some(t) && !a.Work? && !a.Join? && !a.Pause?
    requires x in t.releases && x !in s.releases
    ensures exists j :: j in s.store.pauseEvents && s.store.pauseEvents[j] == x
  {
    assert a.FlagStop? || a.ReadForResume?;
    assert t.releases == ReadForRelease(s, a.j);
    assert s.store.pauseEvents[a.j] == x;
  }

  lemma OnlyReleaseSets(s: System, a: Action, t: System, x: nat)
    requires Step(s, a) == Some(t) && !a.Work? && !a.Join? && !a.Pause? && x < |s.store.events|
    ensures x < |t.store.events| && (t.store.events[x] == s.store.events[x] || (a == Release(x) && x in s.releases))
  {
  }

  lemma OrphanStays(s: System, e: Event, t: System, x: nat)
    requires s.store.Valid() && Orphan(s, x) && AnyStep(s, e) == Some(t)
    ensures Orphan(t, x)
  {
    if !e.Ordinary? {
    } else if e.action.Work? {
      WorkEffect(s, e.action.i, e.action.choice, t);
      hide Step;
    } else if e.action.Join? {
    } else if e.action.Pause? {
      PauseKeepsOrphan(s, e.action.j, t, x);
      hide Step;
    } else {
      OthersGrowEvents(s, e.action, t);
      OnlyReleaseSets(s, e.action, t, x);
      if x in t.releases {
        ReadsMapped(s, e.action, t, x);
      }
      hide Step;
    }
  }

  lemma StepKeepsValid(s: System, e: Event, t: System)
    requires s.store.Valid() && AnyStep(s, e) == Some(t)
    ensures t.store.Valid()
  {
    if !e.Ordinary? {
    } else if e.action.Work? {
      WorkEffect(s, e.action.i, e.action.choice, t);
      hide Step;
    } else if e.action.Join? {
    } else if e.action.Pause? {
    } else {
      OthersGrowEvents(s, e.action, t);
      hide Step;
    }
  }

  lemma TrappedStays(s: System, e: Event, t: System, k: nat)
    requires s.store.Valid() && k < |s.workers| && Trapped(s, k) && AnyStep(s, e) == Some(t)
    ensures k < |t.workers| && Trapped(t, k)
    ensures t.workers[k].dispatched == s.workers[k].dispatched
    ensures s.workers[k].pc.Blocked? ==> t.workers[k].pc == s.workers[k].pc
  {
    var x := s.workers[k].pc.evt;
    OrphanStays(s, e, t, x);
    if e.Ordinary? && e.action.Work? {
      WorkEffect(s, e.action.i, e.action.choice, t);
      hide Step, Orphan;
    } else if e.Ordinary? && e.action.Join? {
      JoinKeepsWorkers(s, t);
      hide Step, Orphan;
    } else if e.Ordinary? {
      OnlyReleaseWakes(s, e.action, t, k);
      hide Step;
    }
  }

  lemma OnlyReleaseWakes(s: System, a: Action, t: System, k: nat)
    requires Step(s, a) == Some(t) && !a.Work? && !a.Join? && k < |s.workers|
    ensures k < |t.workers|
    ensures t.workers[k] == s.workers[k]
            || (a.Release? && a.evt in s.releases && s.workers[k].pc == Blocked(a.evt)
                && t.workers[k] == s.workers[k].(pc := SecondCheck))
  {
  }

  lemma {:induction false} TrappedForEver(s: System, run: seq<Event>, t: System, k: nat)
    requires s.store.Valid() && k < |s.workers| && Trapped(s, k) && Run(AnyStep, s, run) == Some(t)
    ensures t.store.Valid() && k < |t.workers| && Trapped(t, k)
    ensures t.workers[k].dispatched == s.workers[k].dispatched
    ensures s.workers[k].pc.Blocked? ==> t.workers[k].pc == s.workers[k].pc
  {
    hide AnyStep, Trapped;
    if run == [] {
    } else {
      var u := Run(AnyStep, s, run[..|run| - 1]).value;
      TrappedForEver(s, run[..|run| - 1], u, k);
      StepKeepsValid(u, run[|run| - 1], t);
      TrappedStays(u, run[|run| - 1], t, k);
    }
  }

  // ---- a worker that is not trapped gets on ----

  // `t` is `s` a little later: no event has been orphaned, and every worker but `k` is where it was
  // or has been woken.
  ghost predicate Later(s: System, t: System, k: nat) {
    && |t.workers| == |s.workers| && t.job == s.job && t.ids == s.ids
    && t.store.stopFlags == s.store.stopFlags
    && (forall x :: Orphan(t, x) ==> Orphan(s, x))
    && forall i :: 0 <= i < |s.workers| && i != k ==>
         || t.workers[i] == s.workers[i]
         || (s.workers[i].pc.Blocked? && t.workers[i] == s.workers[i].(pc := SecondCheck))
  }

  lemma ReleaseFrees(s: System, e: nat) returns (t: System)
    requires Loose(s) && e in s.releases
    ensures Step(s, Release(e)) == Some(t) && Rows(t) == Rows(s) && t.breaker == s.breaker
    ensures |t.workers| == |s.workers| && t.job == s.job && t.ids == s.ids
    ensures t.store.stopFlags == s.store.stopFlags
    ensures forall x :: Orphan(t, x) ==> Orphan(s, x)
    ensures forall i :: 0 <= i < |s.workers| ==>
      t.workers[i] == if s.workers[i].pc == Blocked(e) then s.workers[i].(pc := SecondCheck) else s.workers[i]
  {
    t := Step(s, Release(e)).value;
    forall x | Orphan(t, x) ensures Orphan(s, x) {
      assert x != e && (x in s.releases ==> x in t.releases);
    }
  }

  lemma ResumeTakesEvent(s: System, e: nat) returns (t: System)
    requires s.store.PauseEvent(s.job) == Some(e)
    ensures Step(s, ReadForResume(s.job)) == Some(t) && e in t.releases
    ensures t == s.(releases := t.releases) && forall x :: x in s.releases ==> x in t.releases
  {
    t := Step(s, ReadForResume(s.job)).value;
  }

  // A sleeper that is not trapped: somebody is about to set its event, or a resume will.
  lemma FreeSleeper(s: System, k: nat) returns (run: seq<Action>, t: System)
    requires Loose(s) && k < |s.workers| && s.workers[k].pc.Blocked? && !Trapped(s, k)
    ensures Run(Step, s, run) == Some(t) && Later(s, t, k) && Rows(t) == Rows(s) && t.breaker == s.breaker
    ensures t.workers[k] == s.workers[k].(pc := SecondCheck) && forall p :: 0 <= p < |run| ==> !run[p].Work?
  {
    var e := s.workers[k].pc.evt;
    assert WaitsLoosely(s, s.workers[k].pc);
    hide Step, Orphan;
    if e in s.releases {
      t := ReleaseFrees(s, e);
      run := [] + [Release(e)];
      RunOne(Step, s, [], Release(e));
    } else {
      MappedToThis(s, e);
      var u := ResumeTakesEvent(s, e);
      OthersKeepLoose(s, ReadForResume(s.job), u);
      t := ReleaseFrees(u, e);
      MoreReleases(s, u);
      run := [] + [ReadForResume(s.job)] + [Release(e)];
      RunOne(Step, s, [], ReadForResume(s.job));
      RunOne(Step, s, [] + [ReadForResume(s.job)], Release(e));
    }
  }

  lemma MappedToThis(s: System, e: nat)
    requires Within(s, e) && !s.store.events[e] && e !in s.releases && !Orphan(s, e)
    ensures s.store.PauseEvent(s.job) == Some(e)
  {
  }

  lemma MoreReleases(s: System, t: System)
    requires t == s.(releases := t.releases) && forall x :: x in s.releases ==> x in t.releases
    ensures forall x :: Orphan(t, x) ==> Orphan(s, x)
  {
  }

  lemma WorkIsLater(s: System, k: nat, c: Choice, t: System)
    requires Loose(s) && Step(s, Work(k, c)) == Some(t)
    ensures Later(s, t, k) && Loose(t) && k < |s.workers| && (!Trapped(s, k) ==> !Trapped(t, k))
  {
    WorkEffect(s, k, c, t);
    WorkKeepsLoose(s, k, c, t);
    assert t.store.events == s.store.events && t.store.pauseEvents == s.store.pauseEvents;
    assert t.releases == s.releases && t.store.stopFlags == s.store.stopFlags;
    hide Step, Loose;
  }

  lemma NoOneElseIsTrapped(s: System, t: System, k: nat)
    requires Later(s, t, k) && k < |s.workers| && !Trapped(t, k)
    requires forall i :: 0 <= i < |s.workers| ==> !Trapped(s, i)
    ensures forall i :: 0 <= i < |t.workers| ==> !Trapped(t, i)
  {
    forall i | 0 <= i < |t.workers| ensures !Trapped(t, i) {
      assert !Trapped(s, i);
    }
    hide Orphan;
  }

  lemma AwakeCanStep(s: System, k: nat, c: Choice)
    requires Loose(s) && k < |s.workers| && !s.workers[k].pc.Blocked? && s.workers[k].pc != Finished
    ensures Step(s, Work(k, c)).Some?
  {
    assert WaitsLoosely(s, s.workers[k].pc);
  }

  // One worker's next step, being freed first if it sleeps.
  lemma GetsOn(s: System, k: nat, c: Choice) returns (run: seq<Action>, t: System)
    requires Loose(s) && k < |s.workers| && !Trapped(s, k) && s.workers[k].pc != Finished
    ensures Run(Step, s, run) == Some(t) && Loose(t) && Later(s, t, k) && !Trapped(t, k)
    ensures TotalAhead(t.workers) < TotalAhead(s.workers)
    ensures if s.workers[k].pc.Blocked?
            then t.workers[k] == s.workers[k].(pc := SecondCheck) && Rows(t) == Rows(s)
            else Step(s, Work(k, c)) == Some(t)
    ensures forall p :: 0 <= p < |run| && run[p].Work? ==> run[p].choice == c && run[p].i == k
  {
    if s.workers[k].pc.Blocked? {
      hide Step, Loose, Orphan, TotalAhead;
      run, t := FreeSleeper(s, k);
      OrdinaryRuns(s, run);
      RunKeepsLoose(s, Ordinaries(run), t);
      WokenIsLess(s.workers, t.workers, k);
      hide Run, AnyStep;
    } else {
      hide Step, Loose, Later, Orphan, TotalAhead;
      AwakeCanStep(s, k, c);
      t := Step(s, Work(k, c)).value;
      WorkIsLater(s, k, c, t);
      StepsRunOut(s, Work(k, c), t);
      RunOne(Step, s, [], Work(k, c));
      run := [] + [Work(k, c)];
    }
  }

  lemma WokenIsLess(v: seq<Worker>, w: seq<Worker>, k: nat)
    requires |v| == |w| && k < |v| && v[k].pc.Blocked? && w[k] == v[k].(pc := SecondCheck)
    requires forall i :: 0 <= i < |v| && i != k ==>
      w[i] == v[i] || (v[i].pc.Blocked? && w[i] == v[i].(pc := SecondCheck))
    ensures TotalAhead(w) < TotalAhead(v)
  {
    assert Ahead(w[k].pc) < Ahead(v[k].pc);
    TotalAheadMonotone(v, w);
  }

  // ---- where a worker can get ----

  // The worker has not written yet, or is about to start its upload; nothing turns it away.
  ghost predicate Going(s: System, k: nat, hasClient: bool)
    requires k < |s.workers|
  {
    && Loose(s) && !s.store.StopRequested(s.job) && !Trapped(s, k)
    && !s.workers[k].pc.WriteSkipped? && !s.workers[k].pc.WriteCircuitOpen?
    && (hasClient ==> !s.workers[k].pc.WriteNotLoggedIn?) && (!hasClient ==> !s.workers[k].pc.WriteUploading?)
    && (Untouched(s.workers[k].pc) || (hasClient && s.workers[k].pc == Dispatch))
  }

  // The clock is late enough for the breaker.
  function NextChoice(s: System, hasClient: bool): Choice {
    Choice(s.breaker.lastFailure + s.breaker.timeout, hasClient, Uploaded)
  }

  // With a client the upload is started; without one the account's row has failed.
  ghost predicate Arrived(s: System, k: nat, hasClient: bool)
    requires k < |s.workers|
  {
    if hasClient then s.workers[k].dispatched && s.workers[k].pc == AwaitUpload
    else && s.workers[k].pc == Finished && Matched(s)
         && FirstOf(Rows(s), s.ids[k]) < |Rows(s)| && StatusOf(s, FirstOf(Rows(s), s.ids[k])) == Failed
  }

  lemma GoingStep(s: System, k: nat, hasClient: bool, t: System)
    requires k < |s.workers| && Going(s, k, hasClient) && !s.workers[k].pc.Blocked?
    requires Step(s, Work(k, NextChoice(s, hasClient))) == Some(t) && Loose(t) && Later(s, t, k) && !Trapped(t, k)
    ensures Going(t, k, hasClient) || Arrived(t, k, hasClient)
  {
    WorkEffect(s, k, NextChoice(s, hasClient), t);
    hide Step, Orphan, WaitsLoosely;
    assert t.store.StopRequested(t.job) == s.store.StopRequested(s.job);
    if s.workers[k].pc.WriteNotLoggedIn? {
      assert Rows(s)[k].accountId == s.ids[k];
    }
  }

  lemma GoingArrives(s: System, k: nat, hasClient: bool) returns (run: seq<Action>, t: System)
    requires k < |s.workers| && (Going(s, k, hasClient) || Arrived(s, k, hasClient))
    ensures Run(Step, s, run) == Some(t) && |t.workers| == |s.workers| && Arrived(t, k, hasClient)
    ensures t.ids == s.ids && t.job == s.job && t.store.stopFlags == s.store.stopFlags
    ensures forall i :: 0 <= i < |s.workers| && i != k && !s.workers[i].pc.Blocked? ==> t.workers[i] == s.workers[i]
    ensures forall p :: 0 <= p < |run| && run[p].Work? ==> run[p].choice.upload == Uploaded && run[p].i == k
    decreases TotalAhead(s.workers)
  {
    hide Step, TotalAhead, Arrived;
    run, t := [], s;
    if !Arrived(s, k, hasClient) {
      var first, u := GetsOn(s, k, NextChoice(s, hasClient));
      if s.workers[k].pc.Blocked? {
        assert Going(u, k, hasClient);
      } else {
        GoingStep(s, k, hasClient, u);
      }
      hide Going;
      var rest;
      rest, t := GoingArrives(u, k, hasClient);
      RunConcat(Step, s, first, rest);
      run := first + rest;
    }
  }

  // ---- an upload that succeeds ----

  lemma UploadReturns(s: System, k: nat) returns (t: System)
    requires Matched(s) && DistinctIds(Rows(s)) && k < |s.workers| && s.workers[k].pc == AwaitUpload
    ensures Step(s, Work(k, Choice(0.0, true, Uploaded))) == Some(t) && Matched(t) && DistinctIds(Rows(t))
    ensures t.workers == s.workers[k := s.workers[k].(pc := WriteSuccess)] && Rows(t) == Rows(s)
    ensures t.runner == s.runner && t.ids == s.ids && t.job == s.job
  {
    t := Step(s, Work(k, Choice(0.0, true, Uploaded))).value;
  }

  lemma SuccessLands(s: System, k: nat) returns (t: System)
    requires Matched(s) && DistinctIds(Rows(s)) && k < |s.workers| && s.workers[k].pc == WriteSuccess
    ensures Step(s, Work(k, Choice(0.0, true, Uploaded))) == Some(t) && Matched(t) && DistinctIds(Rows(t))
    ensures t.workers == s.workers[k := s.workers[k].(pc := RecordSuccess)]
    ensures t.runner == s.runner && t.ids == s.ids && t.job == s.job
    ensures |Rows(t)| == |Rows(s)|
    ensures forall i :: 0 <= i < |Rows(s)| ==> StatusOf(t, i) == if i == k then Success else StatusOf(s, i)
  {
    t := Step(s, Work(k, Choice(0.0, true, Uploaded))).value;
    WorkKeepsMatched(s, k, Choice(0.0, true, Uploaded), t);
    WorkWritesOwnRow(s, k, Choice(0.0, true, Uploaded), t);
    WorkEffect(s, k, Choice(0.0, true, Uploaded), t);
    hide Step;
  }

  // The upload a worker waits for succeeds, and it says so in its row.
  lemma UploadLands(s: System, k: nat) returns (run: seq<Action>, t: System)
    requires Matched(s) && DistinctIds(Rows(s)) && k < |s.workers| && s.workers[k].pc == AwaitUpload
    ensures run == [Work(k, Choice(0.0, true, Uploaded)), Work(k, Choice(0.0, true, Uploaded))]
    ensures Run(Step, s, run) == Some(t) && Matched(t) && DistinctIds(Rows(t))
    ensures t.workers == s.workers[k := s.workers[k].(pc := RecordSuccess)]
    ensures t.runner == s.runner && t.ids == s.ids && t.job == s.job && |Rows(t)| == |Rows(s)|
    ensures forall i :: 0 <= i < |Rows(s)| ==> StatusOf(t, i) == if i == k then Success else StatusOf(s, i)
  {
    hide Step;
    var a := Work(k, Choice(0.0, true, Uploaded));
    var u := UploadReturns(s, k);
    t := SuccessLands(u, k);
    assert forall i :: 0 <= i < |Rows(s)| ==> StatusOf(u, i) == StatusOf(s, i);
    RunOne(Step, s, [], a);
    RunOne(Step, s, [] + [a], a);
    run := [] + [a] + [a];
    assert run == [a, a];
  }
}
