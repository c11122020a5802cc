// Sums of a measure over a sequence. Counting is summing a 0/1 measure.
module Sums {

  function Sum<T>(f: T -> int, xs: seq<T>): int
  {
    if xs == [] then 0 else Sum(f, xs[..|xs| - 1]) + f(xs[|xs| - 1])
  }

  lemma SumAppend<T>(f: T -> int, xs: seq<T>, x: T)
    ensures Sum(f, xs + [x]) == Sum(f, xs) + f(x)
  {
    assert (xs + [x])[..|xs|] == xs;
  }

  lemma {:induction false} SumConcat<T>(f: T -> int, xs: seq<T>, ys: seq<T>)
    ensures Sum(f, xs + ys) == Sum(f, xs) + Sum(f, ys)
  {
    if ys == [] {
      assert xs + ys == xs;
    } else {
      var front, last := ys[..|ys| - 1], ys[|ys| - 1];
      assert xs + ys == (xs + front) + [last];
      SumAppend(f, xs + front, last);
      SumConcat(f, xs, front);
    }
  }

  lemma {:induction false} SumUpdate<T>(f: T -> int, xs: seq<T>, i: nat, x: T)
    requires i < |xs|
    ensures Sum(f, xs[i := x]) == Sum(f, xs) - f(xs[i]) + f(x)
  {
    var n := |xs| - 1;
    if i == n {
      assert xs[i := x][..n] == xs[..n];
    } else {
      assert xs[i := x][..n] == xs[..n][i := x];
      SumUpdate(f, xs[..n], i, x);
    }
  }

  // Measures that agree position by position have the same sum.
  lemma {:induction false} SumSame<S, T>(f: S -> int, xs: seq<S>, g: T -> int, ys: seq<T>)
    requires |xs| == |ys|
    requires forall i :: 0 <= i < |xs| ==> f(xs[i]) == g(ys[i])
    ensures Sum(f, xs) == Sum(g, ys)
  {
    if xs != [] {
      SumSame(f, xs[..|xs| - 1], g, ys[..|ys| - 1]);
    }
  }

  // Sequences that differ in one position.
  lemma SumPoint<T>(f: T -> int, xs: seq<T>, ys: seq<T>, i: nat)
    requires |xs| == |ys| && i < |xs|
    requires forall j :: 0 <= j < |xs| && j != i ==> f(xs[j]) == f(ys[j])
    ensures Sum(f, ys) == Sum(f, xs) - f(xs[i]) + f(ys[i])
  {
    SumUpdate(f, xs, i, ys[i]);
    SumSame(f, xs[i := ys[i]], f, ys);
  }

  lemma {:induction false} SumLe<S, T>(f: S -> int, xs: seq<S>, g: T -> int, ys: seq<T>)
    requires |xs| == |ys|
    requires forall i :: 0 <= i < |xs| ==> f(xs[i]) <= g(ys[i])
    ensures Sum(f, xs) <= Sum(g, ys)
  {
    if xs != [] {
      SumLe(f, xs[..|xs| - 1], g, ys[..|ys| - 1]);
    }
  }

  // A sum of non-negative terms bounds each of them.
  lemma {:induction false} SumBounds<T>(f: T -> int, xs: seq<T>, i: nat)
    requires i < |xs|
    requires forall j :: 0 <= j < |xs| ==> f(xs[j]) >= 0
    ensures Sum(f, xs) >= f(xs[i])
  {
    var n := |xs| - 1;
    SumNonNegative(f, xs[..n]);
    if i < n {
      SumBounds(f, xs[..n], i);
    }
  }

  lemma {:induction false} SumNonNegative<T>(f: T -> int, xs: seq<T>)
    requires forall j :: 0 <= j < |xs| ==> f(xs[j]) >= 0
    ensures Sum(f, xs) >= 0
  {
    if xs != [] {
      SumNonNegative(f, xs[..|xs| - 1]);
    }
  }

  lemma {:induction false} SumZero<T>(f: T -> int, xs: seq<T>)
    requires forall j :: 0 <= j < |xs| ==> f(xs[j]) == 0
    ensures Sum(f, xs) == 0
  {
    if xs != [] {
      SumZero(f, xs[..|xs| - 1]);
    }
  }
}
