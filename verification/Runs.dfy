/** Runs of a transition system: what every step keeps holds along the whole run. */
module Runs {

  ghost predicate StepAt<S>(next: (S, S) -> bool, states: seq<S>, i: nat) {
    i + 1 < |states| && next(states[i], states[i + 1])
  }

  /** Consecutive states are steps. */
  ghost predicate Path<S>(next: (S, S) -> bool, states: seq<S>) {
    forall i: nat | i < |states| - 1 :: StepAt(next, states, i)
  }

  lemma PathGrows<S>(next: (S, S) -> bool, states: seq<S>, t: S)
    requires Path(next, states) && states != [] && next(states[|states| - 1], t)
    ensures Path(next, states + [t])
  {
    var longer := states + [t];
    forall i: nat | i < |longer| - 1 ensures StepAt(next, longer, i) {
      assert i < |states| - 1 ==> StepAt(next, states, i);
    }
  }

  lemma {:induction false} PathKeeps<S(!new)>(next: (S, S) -> bool, inv: S -> bool, states: seq<S>, n: nat)
    requires Path(next, states) && n < |states| && inv(states[0])
    requires forall s, t :: inv(s) && next(s, t) ==> inv(t)
    ensures inv(states[n])
  {
    if n > 0 {
      PathKeeps(next, inv, states, n - 1);
      assert StepAt(next, states, n - 1);
    }
  }
}
