/** `Array.prototype.filter` and the order it keeps. */
module Sequences {

  /** `xs.filter(keep)`: the elements that pass, in their original order. */
  function Filter<T>(xs: seq<T>, keep: T -> bool): (r: seq<T>)
    ensures |r| <= |xs|
    ensures forall i :: 0 <= i < |r| ==> keep(r[i]) && r[i] in xs
  {
    if |xs| == 0 then []
    else if keep(xs[0]) then [xs[0]] + Filter(xs[1..], keep)
    else Filter(xs[1..], keep)
  }

  /** An element is kept exactly when it occurs in the input and passes. */
  lemma {:induction false} FilterMembers<T>(xs: seq<T>, keep: T -> bool, x: T)
    ensures x in Filter(xs, keep) <==> x in xs && keep(x)
  {
    if |xs| > 0 {
      FilterMembers(xs[1..], keep, x);
      assert xs == [xs[0]] + xs[1..];
    }
  }

  /** When every element passes, nothing is dropped. */
  lemma {:induction false} FilterAll<T>(xs: seq<T>, keep: T -> bool)
    requires forall i :: 0 <= i < |xs| ==> keep(xs[i])
    ensures Filter(xs, keep) == xs
  {
    if |xs| > 0 {
      FilterAll(xs[1..], keep);
    }
  }

  /** Two conditions that agree on every element filter alike. */
  lemma {:induction false} FilterCongruent<T>(xs: seq<T>, f: T -> bool, g: T -> bool)
    requires forall i :: 0 <= i < |xs| ==> f(xs[i]) == g(xs[i])
    ensures Filter(xs, f) == Filter(xs, g)
  {
    if |xs| > 0 {
      FilterCongruent(xs[1..], f, g);
    }
  }

  /** `xs` is `ys` with some elements left out, the rest in the same order. */
  predicate IsSubsequence<T(==)>(xs: seq<T>, ys: seq<T>)
    decreases |ys|
  {
    if |xs| == 0 then true
    else if |ys| == 0 then false
    else if xs[0] == ys[0] then IsSubsequence(xs[1..], ys[1..])
    else IsSubsequence(xs, ys[1..])
  }

  lemma SubsequenceSkip<T>(xs: seq<T>, ys: seq<T>)
    requires |ys| > 0 && |xs| > 0 && IsSubsequence(xs, ys[1..])
    ensures IsSubsequence(xs, ys)
    decreases |xs| + |ys|
  {
    if xs[0] == ys[0] {
      SubsequenceTail(xs, ys[1..]);
    }
  }

  lemma SubsequenceTail<T>(xs: seq<T>, ys: seq<T>)
    requires |xs| > 0 && IsSubsequence(xs, ys)
    ensures IsSubsequence(xs[1..], ys)
    decreases |xs| + |ys|
  {
    if |ys| > 0 && xs[0] != ys[0] {
      SubsequenceTail(xs, ys[1..]);
      if |xs[1..]| > 0 {
        SubsequenceSkip(xs[1..], ys);
      }
    } else if |ys| > 0 && |xs[1..]| > 0 {
      SubsequenceSkip(xs[1..], ys);
    }
  }

  /** Filtering keeps the relative order of what it keeps. */
  lemma {:induction false} FilterKeepsOrder<T>(xs: seq<T>, keep: T -> bool)
    ensures IsSubsequence(Filter(xs, keep), xs)
  {
    if |xs| > 0 {
      FilterKeepsOrder(xs[1..], keep);
      var r := Filter(xs, keep);
      if keep(xs[0]) {
        assert r[0] == xs[0] && r[1..] == Filter(xs[1..], keep);
      } else if |r| > 0 {
        SubsequenceSkip(r, xs);
      }
    }
  }
}
