/** Runs of a transition system, which is given by what is enabled and what a step does. */
module Runs {
  ghost predicate IsRun<S, A>(enabled: (S, A) -> bool, step: (S, A) --> S, s: S, run: seq<A>)
    decreases |run|
  {
    run == [] || (enabled(s, run[0]) && step.requires(s, run[0]) && IsRun(enabled, step, step(s, run[0]), run[1..]))
  }

  ghost function End<S, A>(enabled: (S, A) -> bool, step: (S, A) --> S, s: S, run: seq<A>): S
    requires IsRun(enabled, step, s, run)
    decreases |run|
  {
    if run == [] then s else End(enabled, step, step(s, run[0]), run[1..])
  }

  // One run after another is a run.
  lemma {:induction false} Join<S, A>(
      enabled: (S, A) -> bool, step: (S, A) --> S, s: S, run: seq<A>, more: seq<A>)
    requires IsRun(enabled, step, s, run) && IsRun(enabled, step, End(enabled, step, s, run), more)
    ensures IsRun(enabled, step, s, run + more)
    ensures End(enabled, step, s, run + more) == End(enabled, step, End(enabled, step, s, run), more)
    decreases |run|
  {
    if run == [] {
      assert run + more == more;
    } else {
      assert (run + more)[1..] == run[1..] + more;
      Join(enabled, step, step(s, run[0]), run[1..], more);
    }
  }

  // One more step at the end.
  lemma Extend<S, A>(enabled: (S, A) -> bool, step: (S, A) --> S, s: S, run: seq<A>, a: A)
    returns (longer: seq<A>)
    requires IsRun(enabled, step, s, run)
    requires enabled(End(enabled, step, s, run), a) && step.requires(End(enabled, step, s, run), a)
    ensures longer == run + [a] && IsRun(enabled, step, s, longer)
    ensures End(enabled, step, s, longer) == step(End(enabled, step, s, run), a)
  {
    var t := End(enabled, step, s, run);
    assert [a][1..] == [] && IsRun(enabled, step, step(t, a), []);
    Join(enabled, step, s, run, [a]);
    longer := run + [a];
  }

  // What every step keeps, every run keeps.
  lemma {:induction false} Always<S(!new), A(!new)>(
      enabled: (S, A) -> bool, step: (S, A) --> S, inv: S -> bool, s: S, run: seq<A>)
    requires inv(s) && IsRun(enabled, step, s, run)
    requires forall t, a :: inv(t) && enabled(t, a) && step.requires(t, a) ==> inv(step(t, a))
    ensures inv(End(enabled, step, s, run))
    decreases |run|
  {
    if run != [] {
      Always(enabled, step, inv, step(s, run[0]), run[1..]);
    }
  }

  // And if every step brings the measure down, a run has at most as many steps as that.
  lemma {:induction false} Bounded<S(!new), A(!new)>(
      enabled: (S, A) -> bool, step: (S, A) --> S, inv: S -> bool, work: S -> nat, s: S, run: seq<A>)
    requires inv(s) && IsRun(enabled, step, s, run)
    requires forall t, a :: inv(t) && enabled(t, a) && step.requires(t, a) ==>
               inv(step(t, a)) && work(step(t, a)) < work(t)
    ensures work(End(enabled, step, s, run)) + |run| <= work(s)
    decreases |run|
  {
    if run != [] {
      Bounded(enabled, step, inv, work, step(s, run[0]), run[1..]);
    }
  }

  // How many actions of a run are of some kind.
  ghost function CountOf<A>(kind: A -> bool, run: seq<A>): nat {
    if run == [] then 0 else (if kind(run[0]) then 1 else 0) + CountOf(kind, run[1..])
  }

  lemma {:induction false} CountNone<A(!new)>(kind: A -> bool, run: seq<A>)
    requires forall a | a in run :: !kind(a)
    ensures CountOf(kind, run) == 0
  {
    if run != [] {
      CountNone(kind, run[1..]);
    }
  }

  lemma {:induction false} CountAppend<A>(kind: A -> bool, run: seq<A>, a: A)
    ensures CountOf(kind, run + [a]) == CountOf(kind, run) + if kind(a) then 1 else 0
  {
    if run == [] {
      assert [] + [a] == [a] && [a][1..] == [];
    } else {
      assert (run + [a])[1..] == run[1..] + [a];
      CountAppend(kind, run[1..], a);
    }
  }
}
