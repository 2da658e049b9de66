/** A piece of a sequence standing at a position. */
module Slices {
  ghost predicate At<T>(ts: seq<T>, i: nat, xs: seq<T>) {
    i + |xs| <= |ts| && forall k {:trigger xs[k]} :: 0 <= k < |xs| ==> ts[i + k] == xs[k]
  }

  lemma {:induction false} AtSplit<T>(ts: seq<T>, i: nat, a: seq<T>, b: seq<T>)
    requires At(ts, i, a + b)
    ensures At(ts, i, a) && At(ts, i + |a|, b)
  {
    forall k | 0 <= k < |a| ensures ts[i + k] == a[k] { assert (a + b)[k] == a[k]; }
    forall k | 0 <= k < |b| ensures ts[i + |a| + k] == b[k] { assert (a + b)[|a| + k] == b[k]; }
  }

  lemma {:induction false} AtFirst<T>(ts: seq<T>, i: nat, xs: seq<T>)
    requires At(ts, i, xs) && xs != []
    ensures i < |ts| && ts[i] == xs[0]
  {
    assert ts[i + 0] == xs[0];
  }

  lemma {:induction false} AtIndex<T>(ts: seq<T>, i: nat, xs: seq<T>, k: nat)
    requires At(ts, i, xs) && k < |xs|
    ensures i + k < |ts| && ts[i + k] == xs[k]
  {
  }

  lemma {:induction false} AtPlaces<T>(a: seq<T>, b: seq<T>, c: seq<T>)
    ensures At(a + b + c, 0, a) && At(a + b + c, |a|, b) && At(a + b + c, |a| + |b|, c)
  {
  }

  lemma {:induction false} AtIs<T>(ts: seq<T>, i: nat, xs: seq<T>)
    requires At(ts, i, xs)
    ensures ts[i..i + |xs|] == xs
  {
  }
}
