/** Running a deterministic machine over a sequence of events. */
module Folds {

  function Fold<S, E>(f: (S, E) -> S, s: S, es: seq<E>): S
    decreases |es|
  {
    if es == [] then s else f(Fold(f, s, es[..|es| - 1]), es[|es| - 1])
  }

  lemma {:induction false} FoldOne<S, E>(f: (S, E) -> S, s: S, es: seq<E>, e: E)
    ensures Fold(f, s, es + [e]) == f(Fold(f, s, es), e)
    ensures Fold(f, s, [e]) == f(s, e)
  {
    assert (es + [e])[..|es|] == es;
    assert [e][..0] == [];
  }

  /** Where a run is cut does not matter. */
  lemma {:induction false} FoldConcat<S, E>(f: (S, E) -> S, s: S, a: seq<E>, b: seq<E>)
    ensures Fold(f, s, a + b) == Fold(f, Fold(f, s, a), b)
    decreases |b|
  {
    if b == [] {
      assert a + b == a;
    } else {
      var k := |b| - 1;
      assert (a + b)[..|a| + k] == a + b[..k];
      FoldConcat(f, s, a, b[..k]);
    }
  }
}
