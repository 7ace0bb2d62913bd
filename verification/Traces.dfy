/** Runs of a deterministic machine over a list of inputs. */
module Traces {
  function Fold<S, E>(step: (S, E) -> S, s: S, es: seq<E>): (r: S)
    decreases |es|
  {
    if es == [] then s else Fold(step, step(s, es[0]), es[1..])
  }

  lemma {:induction false} FoldConcat<S, E>(step: (S, E) -> S, s: S, a: seq<E>, b: seq<E>)
    ensures Fold(step, s, a + b) == Fold(step, Fold(step, s, a), b)
    decreases |a|
  {
    if a == [] {
      assert a + b == b;
    } else {
      FoldConcat(step, step(s, a[0]), a[1..], b);
      assert (a + b)[1..] == a[1..] + b;
    }
  }

  lemma FoldOne<S, E>(step: (S, E) -> S, s: S, e: E)
    ensures Fold(step, s, [e]) == step(s, e)
  {
    assert [e][1..] == [];
  }

  /** The last input is the last step. */
  lemma {:induction false} FoldLast<S, E>(step: (S, E) -> S, s: S, es: seq<E>, e: E)
    ensures Fold(step, s, es + [e]) == step(Fold(step, s, es), e)
  {
    FoldConcat(step, s, es, [e]);
    FoldOne(step, Fold(step, s, es), e);
  }
}
