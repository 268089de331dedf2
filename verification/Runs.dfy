/** Runs of a transition system, and the two ways properties of a step become
    properties of every run: an invariant of one state, and a relation between an
    earlier and a later state. */
module Runs {
  ghost predicate IsRun<S(!new)>(init: S -> bool, next: (S, S) -> bool, run: seq<S>) {
    && |run| > 0
    && init(run[0])
    && forall i :: 0 <= i < |run| - 1 ==> next(run[i], run[i + 1])
  }

  ghost predicate Inductive<S(!new)>(init: S -> bool, next: (S, S) -> bool, inv: S -> bool) {
    && (forall s :: init(s) ==> inv(s))
    && (forall s, s' :: inv(s) && next(s, s') ==> inv(s'))
  }

  /** `rel` is kept by every step that starts in the invariant, and composes. */
  ghost predicate KeptByStep<S(!new)>(next: (S, S) -> bool, inv: S -> bool, rel: (S, S) -> bool) {
    && (forall s :: rel(s, s))
    && (forall s, s' :: inv(s) && next(s, s') ==> rel(s, s'))
    && (forall s, s', s'' :: rel(s, s') && rel(s', s'') ==> rel(s, s''))
  }

  lemma {:induction false} InvariantHolds<S(!new)>(
    init: S -> bool, next: (S, S) -> bool, inv: S -> bool, run: seq<S>, k: nat)
    requires IsRun(init, next, run)
    requires Inductive(init, next, inv)
    requires k < |run|
    ensures inv(run[k])
  {
    if k > 0 {
      InvariantHolds(init, next, inv, run, k - 1);
      assert next(run[k - 1], run[k - 1 + 1]);
    }
  }

  lemma {:induction false} RelationHolds<S(!new)>(
    init: S -> bool, next: (S, S) -> bool, inv: S -> bool, rel: (S, S) -> bool, run: seq<S>, i: nat, j: nat)
    requires IsRun(init, next, run)
    requires Inductive(init, next, inv)
    requires KeptByStep(next, inv, rel)
    requires i <= j < |run|
    ensures rel(run[i], run[j])
  {
    if i < j {
      RelationHolds(init, next, inv, rel, run, i, j - 1);
      InvariantHolds(init, next, inv, run, j - 1);
      assert next(run[j - 1], run[j - 1 + 1]);
    }
  }
}
