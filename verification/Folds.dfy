/** Runs of a state machine that answers every input. */
module Folds {

  /** Final state and answers, oldest first. */
  function Fold<S, I, O>(step: (S, I) -> (S, O), s: S, inputs: seq<I>): (S, seq<O>) {
    if inputs == [] then (s, [])
    else
      var n := |inputs| - 1;
      var (m, xs) := Fold(step, s, inputs[..n]);
      var (s', x) := step(m, inputs[n]);
      (s', xs + [x])
  }

  lemma {:induction false} FoldLength<S, I, O>(step: (S, I) -> (S, O), s: S, inputs: seq<I>)
    ensures |Fold(step, s, inputs).1| == |inputs|
    decreases |inputs|
  {
    if inputs != [] {
      FoldLength(step, s, inputs[..|inputs| - 1]);
    }
  }

  lemma FoldOne<S, I, O>(step: (S, I) -> (S, O), s: S, i: I)
    ensures Fold(step, s, [i]).0 == step(s, i).0
    ensures Fold(step, s, [i]).1 == [step(s, i).1]
  {
    var before := [i][..0];
    assert before == [];
    assert Fold(step, s, before).0 == s && Fold(step, s, before).1 == [];
    assert Fold(step, s, [i]).1 == Fold(step, s, before).1 + [step(s, i).1];
  }

  lemma {:induction false} FoldConcat<S, I, O>(step: (S, I) -> (S, O), s: S, a: seq<I>, b: seq<I>)
    ensures var (m, xs) := Fold(step, s, a);
            var (s', ys) := Fold(step, m, b);
            Fold(step, s, a + b) == (s', xs + ys)
    decreases |b|
  {
    var (m, xs) := Fold(step, s, a);
    if b == [] {
      assert a + b == a;
      assert xs + [] == xs;
    } else {
      var n := |b| - 1;
      FoldConcat(step, s, a, b[..n]);
      assert (a + b)[..|a + b| - 1] == a + b[..n];
      var (m', ys) := Fold(step, m, b[..n]);
      assert xs + ys + [step(m', b[n]).1] == xs + (ys + [step(m', b[n]).1]);
    }
  }

  lemma FoldPair<S, I, O>(step: (S, I) -> (S, O), s: S, p: I, q: I)
    ensures Fold(step, s, [p, q]).0 == step(step(s, p).0, q).0
    ensures Fold(step, s, [p, q]).1 == [step(s, p).1, step(step(s, p).0, q).1]
  {
    FoldOne(step, s, p);
    FoldOne(step, step(s, p).0, q);
    FoldConcat(step, s, [p], [q]);
    assert [p] + [q] == [p, q];
  }

  lemma FoldSandwich<S, I, O>(step: (S, I) -> (S, O), s: S, pre: seq<I>, mid: seq<I>, post: seq<I>)
    ensures var m := Fold(step, s, pre).0;
            var n := Fold(step, m, mid).0;
            && Fold(step, s, pre + mid + post).0 == Fold(step, n, post).0
            && Fold(step, s, pre + mid + post).1
               == Fold(step, s, pre).1 + Fold(step, m, mid).1 + Fold(step, n, post).1
  {
    FoldConcat(step, s, pre, mid);
    FoldConcat(step, s, pre + mid, post);
  }

  /** Equal but for the exchange of the elements at `n` and `n + 1`. */
  ghost predicate Exchanged<T>(xs: seq<T>, ys: seq<T>, n: nat) {
    && |xs| == |ys| && n + 1 < |xs|
    && xs[n] == ys[n + 1] && xs[n + 1] == ys[n]
    && forall i :: 0 <= i < |xs| && i != n && i != n + 1 ==> xs[i] == ys[i]
  }

  lemma ExchangedMiddle<T>(xs: seq<T>, x: T, y: T, zs: seq<T>)
    ensures Exchanged(xs + [x, y] + zs, xs + [y, x] + zs, |xs|)
  {
  }

  /** Two neighbouring inputs that commute where they stand can be exchanged in a run. */
  lemma FoldSwap<S, I, O>(step: (S, I) -> (S, O), s: S, pre: seq<I>, p: I, q: I, post: seq<I>)
    requires var m := Fold(step, s, pre).0;
             && step(step(m, p).0, q).0 == step(step(m, q).0, p).0
             && step(step(m, p).0, q).1 == step(m, q).1
             && step(step(m, q).0, p).1 == step(m, p).1
    ensures Fold(step, s, pre + [p, q] + post).0 == Fold(step, s, pre + [q, p] + post).0
    ensures Exchanged(Fold(step, s, pre + [p, q] + post).1, Fold(step, s, pre + [q, p] + post).1, |pre|)
  {
    var m := Fold(step, s, pre).0;
    var n := step(step(m, p).0, q).0;
    FoldPair(step, m, p, q);
    FoldPair(step, m, q, p);
    FoldSandwich(step, s, pre, [p, q], post);
    FoldSandwich(step, s, pre, [q, p], post);
    FoldLength(step, s, pre);
    ExchangedMiddle(Fold(step, s, pre).1, step(m, p).1, step(m, q).1, Fold(step, n, post).1);
  }
}
