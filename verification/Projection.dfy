// Two systems run side by side: what one of them does in a common run is a run of its own,
// once the states in which it rests are left out.
module Projection {
  import opened Wrappers

  // `parts` gives its step at each common step, if it takes part.
  ghost predicate Rests<S(!new), K(!new)>(xs: seq<S>, parts: seq<Option<K>>)
  {
    |xs| == |parts| + 1 && forall i :: 0 <= i < |parts| && parts[i].None? ==> xs[i + 1] == xs[i]
  }

  // How many of its steps the first i common ones contain.
  function Count<K>(parts: seq<Option<K>>, i: nat): nat
    requires i <= |parts|
  {
    if i == 0 then 0 else Count(parts, i - 1) + if parts[i - 1].Some? then 1 else 0
  }

  function Moves<K>(parts: seq<Option<K>>): seq<K>
  {
    if parts == [] then []
    else Moves(parts[..|parts| - 1]) + if parts[|parts| - 1].Some? then [parts[|parts| - 1].value] else []
  }

  function Stops<S, K>(xs: seq<S>, parts: seq<Option<K>>): (r: seq<S>)
    requires |xs| == |parts| + 1
    ensures |r| >= 1 && r[0] == xs[0]
  {
    if parts == [] then xs
    else
      var n := |parts| - 1;
      Stops(xs[..n + 1], parts[..n]) + if parts[n].Some? then [xs[n + 1]] else []
  }

  lemma {:induction false} CountPrefix<K>(parts: seq<Option<K>>, n: nat, i: nat)
    requires i <= n <= |parts|
    ensures Count(parts[..n], i) == Count(parts, i)
  {
    if i > 0 {
      CountPrefix(parts, n, i - 1);
    }
  }

  lemma {:induction false} Sizes<S, K>(xs: seq<S>, parts: seq<Option<K>>)
    requires |xs| == |parts| + 1
    ensures |Moves(parts)| == Count(parts, |parts|) && |Stops(xs, parts)| == Count(parts, |parts|) + 1
  {
    if parts != [] {
      var n := |parts| - 1;
      Sizes(xs[..n + 1], parts[..n]);
      CountPrefix(parts, n, n);
    }
  }

  // Each common state is the one it had reached by then.
  lemma {:induction false} StopAt<S(!new), K(!new)>(xs: seq<S>, parts: seq<Option<K>>, i: nat)
    requires Rests(xs, parts) && i < |xs|
    ensures Count(parts, i) < |Stops(xs, parts)| && Stops(xs, parts)[Count(parts, i)] == xs[i]
    decreases |parts|
  {
    Sizes(xs, parts);
    if parts != [] {
      var n := |parts| - 1;
      Sizes(xs[..n + 1], parts[..n]);
      CountPrefix(parts, n, n);
      if i <= n {
        StopAt(xs[..n + 1], parts[..n], i);
        CountPrefix(parts, n, i);
      } else {
        StopAt(xs[..n + 1], parts[..n], n);
      }
    }
  }

  lemma {:induction false} MoveAt<K>(parts: seq<Option<K>>, y: nat) returns (i: nat)
    requires y < |Moves(parts)|
    ensures i < |parts| && parts[i].Some? && Count(parts, i) == y && Moves(parts)[y] == parts[i].value
  {
    var n := |parts| - 1;
    MovesCounted(parts[..n]);
    CountPrefix(parts, n, n);
    if y < |Moves(parts[..n])| {
      i := MoveAt(parts[..n], y);
      CountPrefix(parts, n, i);
    } else {
      i := n;
    }
  }

  lemma {:induction false} MovesCounted<K>(parts: seq<Option<K>>)
    ensures |Moves(parts)| == Count(parts, |parts|)
  {
    if parts != [] {
      MovesCounted(parts[..|parts| - 1]);
      CountPrefix(parts, |parts| - 1, |parts| - 1);
    }
  }

  // So its steps join its states.
  lemma Joined<S(!new), K(!new)>(next: (S, K, S) -> bool, xs: seq<S>, parts: seq<Option<K>>)
    requires Rests(xs, parts)
    requires forall i :: 0 <= i < |parts| && parts[i].Some? ==> next(xs[i], parts[i].value, xs[i + 1])
    ensures var ss, ks := Stops(xs, parts), Moves(parts);
            |ss| == |ks| + 1 && forall y :: 0 <= y < |ks| ==> next(ss[y], ks[y], ss[y + 1])
  {
    var ss, ks := Stops(xs, parts), Moves(parts);
    Sizes(xs, parts);
    forall y | 0 <= y < |ks|
      ensures next(ss[y], ks[y], ss[y + 1])
    {
      var i := MoveAt(parts, y);
      StopAt(xs, parts, i);
      StopAt(xs, parts, i + 1);
    }
  }

  // Whatever it passes through between two common states, it does at a common state between.
  lemma {:induction false} Site<K>(parts: seq<Option<K>>, lo: nat, hi: nat, y: nat) returns (i: nat)
    requires lo <= hi <= |parts| && Count(parts, lo) <= y <= Count(parts, hi)
    ensures lo <= i <= hi && Count(parts, i) == y
    decreases hi
  {
    if hi == lo || Count(parts, hi) == y {
      i := hi;
    } else {
      i := Site(parts, lo, hi - 1, y);
    }
  }

  lemma {:induction false} CountGrows<K>(parts: seq<Option<K>>, lo: nat, hi: nat)
    requires lo <= hi <= |parts|
    ensures Count(parts, lo) <= Count(parts, hi)
    decreases hi
  {
    if hi > lo {
      CountGrows(parts, lo, hi - 1);
    }
  }
}
