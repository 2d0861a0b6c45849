/** Runs of a transition system given by its step function, which is None where a step is not
    possible. */
module Machine {
  import opened Prelude

  /** s2 is reached from s1 by the actions, in order. */
  ghost predicate Runs<S, A>(next: (S, A) -> Option<S>, s1: S, actions: seq<A>, s2: S)
    decreases |actions|
  {
    if actions == [] then s1 == s2
    else next(s1, actions[0]).Some? && Runs(next, next(s1, actions[0]).value, actions[1..], s2)
  }

  lemma {:induction false} RunsThen<S, A>(next: (S, A) -> Option<S>, s1: S, first: seq<A>, s2: S, second: seq<A>, s3: S)
    requires Runs(next, s1, first, s2) && Runs(next, s2, second, s3)
    ensures Runs(next, s1, first + second, s3)
    decreases |first|
  {
    if first == [] {
      assert first + second == second;
    } else {
      RunsThen(next, next(s1, first[0]).value, first[1..], s2, second, s3);
      assert (first + second)[1..] == first[1..] + second;
    }
  }

  lemma OneStep<S, A>(next: (S, A) -> Option<S>, s: S, a: A, s': S)
    requires next(s, a) == Some(s')
    ensures Runs(next, s, [a], s')
  {
    assert [a][1..] == [];
    assert Runs(next, s', [], s');
  }

  lemma ThenStep<S, A>(next: (S, A) -> Option<S>, s0: S, actions: seq<A>, s: S, a: A, s': S)
    requires Runs(next, s0, actions, s) && next(s, a) == Some(s')
    ensures Runs(next, s0, actions + [a], s')
  {
    OneStep(next, s, a, s');
    RunsThen(next, s0, actions, s, [a], s');
  }

  lemma StepThen<S, A>(next: (S, A) -> Option<S>, s: S, a: A, s': S, actions: seq<A>, s2: S)
    requires next(s, a) == Some(s') && Runs(next, s', actions, s2)
    ensures Runs(next, s, [a] + actions, s2)
  {
    OneStep(next, s, a, s');
    RunsThen(next, s, [a], s', actions, s2);
  }

  /** Every step of one machine is a step of the other. */
  ghost predicate Includes<S(!new), A(!new)>(small: (S, A) -> Option<S>, large: (S, A) -> Option<S>) {
    forall s, a :: small(s, a).Some? ==> large(s, a) == small(s, a)
  }

  lemma {:induction false} RunsInLarger<S(!new), A(!new)>(small: (S, A) -> Option<S>, large: (S, A) -> Option<S>,
                                                          s1: S, actions: seq<A>, s2: S)
    requires Includes(small, large) && Runs(small, s1, actions, s2)
    ensures Runs(large, s1, actions, s2)
    decreases |actions|
  {
    if actions != [] {
      assert large(s1, actions[0]) == small(s1, actions[0]);
      RunsInLarger(small, large, small(s1, actions[0]).value, actions[1..], s2);
    }
  }
}
