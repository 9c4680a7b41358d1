// Vocabulary shared by several modules.
module Options {
  datatype Option<+T> = None | Some(value: T)

  ghost predicate Distinct<T>(s: seq<T>) {
    forall i, j :: 0 <= i < j < |s| ==> s[i] != s[j]
  }
}

// The three states both circuit breakers report to their callers.  `HalfOpen` is only ever
// reported: neither breaker stores it.
module Circuits {
  datatype Circuit = Closed | Open | HalfOpen
}

// Runs of a transition system whose steps are given by a partial function: `None` is an action
// that cannot be taken in that state.
module Runs {
  import opened Options

  function Run<S, A>(step: (S, A) -> Option<S>, s: S, run: seq<A>): Option<S> {
    if run == [] then Some(s)
    else match Run(step, s, run[..|run| - 1])
         case None => None
         case Some(t) => step(t, run[|run| - 1])
  }

  lemma RunOne<S, A>(step: (S, A) -> Option<S>, s: S, run: seq<A>, a: A)
    ensures Run(step, s, run + [a])
         == match Run(step, s, run)
            case None => None
            case Some(t) => step(t, a)
  {
    assert (run + [a])[..|run|] == run;
  }

  lemma {:induction false} RunConcat<S, A>(step: (S, A) -> Option<S>, s: S, first: seq<A>, second: seq<A>)
    ensures Run(step, s, first + second)
         == match Run(step, s, first)
            case None => None
            case Some(t) => Run(step, t, second)
  {
    if second == [] {
      assert first + second == first;
    } else {
      var n := |second| - 1;
      RunConcat(step, s, first, second[..n]);
      assert first + second == (first + second[..n]) + [second[n]];
      RunOne(step, s, first + second[..n], second[n]);
    }
  }

  lemma RunCons<S, A>(step: (S, A) -> Option<S>, s: S, a: A, t: S, run: seq<A>)
    requires step(s, a) == Some(t)
    ensures Run(step, s, [a] + run) == Run(step, t, run)
  {
    RunOne(step, s, [], a);
    assert [] + [a] == [a];
    RunConcat(step, s, [a], run);
  }

  lemma RunThree<S, A>(step: (S, A) -> Option<S>, s: S, a: A, t: S, b: A, u: S, c: A, v: S)
    requires step(s, a) == Some(t) && step(t, b) == Some(u) && step(u, c) == Some(v)
    ensures Run(step, s, [a, b, c]) == Some(v)
  {
    RunCons(step, u, c, v, []);
    RunCons(step, t, b, u, [c]);
    RunCons(step, s, a, t, [b, c]);
    assert [c] + [] == [c] && [b] + [c] == [b, c] && [a] + [b, c] == [a, b, c];
  }

  // Every beginning of a possible run is possible.
  lemma RunPrefix<S, A>(step: (S, A) -> Option<S>, s: S, run: seq<A>, k: nat)
    requires k <= |run| && Run(step, s, run).Some?
    ensures Run(step, s, run[..k]).Some?
  {
    RunConcat(step, s, run[..k], run[k..]);
    assert run[..k] + run[k..] == run;
  }

  // The state after the first `k` actions of a possible run.
  ghost function At<S, A>(step: (S, A) -> Option<S>, s: S, run: seq<A>, k: nat): (t: S)
    requires k <= |run| && Run(step, s, run).Some?
    ensures Run(step, s, run[..k]) == Some(t)
  {
    RunPrefix(step, s, run, k);
    Run(step, s, run[..k]).value
  }

  lemma AtSteps<S, A>(step: (S, A) -> Option<S>, s: S, run: seq<A>, k: nat)
    requires k < |run| && Run(step, s, run).Some?
    ensures step(At(step, s, run, k), run[k]) == Some(At(step, s, run, k + 1))
    ensures At(step, s, run, 0) == s
    ensures At(step, s, run, |run|) == Run(step, s, run).value
  {
    RunPrefix(step, s, run, k + 1);
    assert run[..k + 1] == run[..k] + [run[k]];
    RunOne(step, s, run[..k], run[k]);
    assert run[..|run|] == run;
  }
}
