/** Runs of a state machine: every interleaving is a sequence of states, one atomic step apart. */
module Behaviors {

  ghost predicate IsRun<S(!new)>(init: S -> bool, next: (S, S) -> bool, run: seq<S>) {
    && |run| > 0 && init(run[0])
    && forall i | 0 <= i < |run| - 1 :: next(run[i], run[i + 1])
  }

  /** An inductive invariant holds throughout every run. */
  lemma {:induction false} AlongRun<S(!new)>(init: S -> bool, next: (S, S) -> bool, inv: S -> bool, run: seq<S>)
    requires IsRun(init, next, run)
    requires forall s :: init(s) ==> inv(s)
    requires forall s, s' :: inv(s) && next(s, s') ==> inv(s')
    ensures forall i | 0 <= i < |run| :: inv(run[i])
  {
    var n := 1;
    while n < |run|
      invariant 1 <= n <= |run| && forall i | 0 <= i < n :: inv(run[i])
    {
      assert next(run[n - 1], run[n]);
      n := n + 1;
    }
  }

  lemma Extended<S(!new)>(init: S -> bool, next: (S, S) -> bool, run: seq<S>, s: S)
    requires IsRun(init, next, run) && next(run[|run| - 1], s)
    ensures IsRun(init, next, run + [s])
  {
  }
}
