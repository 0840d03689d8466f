/** Machines that read a text and emit another, and how their runs compose. */
module Folds {

  /** The run of a machine: the state it ends in and all it emits. */
  function Fold<S, I, O>(step: (S, I) -> (S, seq<O>), s: S, input: seq<I>): (S, seq<O>) {
    if input == [] then (s, [])
    else
      var (t, first) := Fold(step, s, input[..|input| - 1]);
      var (u, last) := step(t, input[|input| - 1]);
      (u, first + last)
  }

  lemma FoldSnoc<S, I, O>(step: (S, I) -> (S, seq<O>), s: S, a: seq<I>, x: I)
    ensures var (t, first) := Fold(step, s, a);
      Fold(step, s, a + [x]) == (step(t, x).0, first + step(t, x).1)
  {
    assert (a + [x])[..|a|] == a;
  }

  lemma {:induction false} FoldConcat<S, I, O>(step: (S, I) -> (S, seq<O>), s: S, a: seq<I>, b: seq<I>)
    ensures var (t, first) := Fold(step, s, a);
      Fold(step, s, a + b) == (Fold(step, t, b).0, first + Fold(step, t, b).1)
  {
    var (t, first) := Fold(step, s, a);
    if b == [] {
      assert a + b == a && first + [] == first;
    } else {
      var c, x := b[..|b| - 1], b[|b| - 1];
      assert b == c + [x] && a + b == (a + c) + [x];
      FoldConcat(step, s, a, c);
      FoldSnoc(step, s, a + c, x);
      FoldSnoc(step, t, c, x);
      var (u, mid) := Fold(step, t, c);
      assert first + mid + step(u, x).1 == first + (mid + step(u, x).1);
    }
  }

  /** The texts of the elements, one after another. */
  function ConcatMap<T, U>(f: T -> seq<U>, ts: seq<T>): seq<U> {
    if ts == [] then [] else ConcatMap(f, ts[..|ts| - 1]) + f(ts[|ts| - 1])
  }

  lemma ConcatMapSnoc<T, U>(f: T -> seq<U>, ts: seq<T>, t: T)
    ensures ConcatMap(f, ts + [t]) == ConcatMap(f, ts) + f(t)
  {
    assert (ts + [t])[..|ts|] == ts;
  }

  lemma {:induction false} ConcatMapConcat<T, U>(f: T -> seq<U>, a: seq<T>, b: seq<T>)
    ensures ConcatMap(f, a + b) == ConcatMap(f, a) + ConcatMap(f, b)
  {
    if b == [] {
      assert a + b == a && ConcatMap(f, a) + [] == ConcatMap(f, a);
    } else {
      var c, x := b[..|b| - 1], b[|b| - 1];
      assert b == c + [x] && a + b == (a + c) + [x];
      ConcatMapConcat(f, a, c);
      ConcatMapSnoc(f, a + c, x);
      assert ConcatMap(f, a) + ConcatMap(f, c) + f(x) == ConcatMap(f, a) + (ConcatMap(f, c) + f(x));
    }
  }
}
