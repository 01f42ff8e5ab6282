/** Runs of a state machine given by its step function. */
module Executions {
  function Fold<S, E>(step: (S, E) -> S, s: S, evs: seq<E>): S
    decreases |evs|
  {
    if evs == [] then s else Fold(step, step(s, evs[0]), evs[1..])
  }

  lemma {:induction false} FoldConcat<S, E>(step: (S, E) -> S, s: S, a: seq<E>, b: seq<E>)
    ensures Fold(step, s, a + b) == Fold(step, Fold(step, s, a), b)
    decreases |a|
  {
    if a == [] {
      assert a + b == b;
    } else {
      assert (a + b)[1..] == a[1..] + b;
      FoldConcat(step, step(s, a[0]), a[1..], b);
    }
  }
}
