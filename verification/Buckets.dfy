// Items spread over buckets by their keys, as plain sequences: what the hash tables mean.
module Buckets {

  // Every item sits in the bucket of its key, and no key occurs twice.
  ghost predicate Bucketed<T, K>(items: seq<seq<T>>, key: T -> K, slot: K -> nat)
  {
    && (forall b, i :: 0 <= b < |items| && 0 <= i < |items[b]| ==> slot(key(items[b][i])) == b)
    && (forall b, i, j :: 0 <= b < |items| && 0 <= i < j < |items[b]| ==> key(items[b][i]) != key(items[b][j]))
  }

  // The set of registered keys.
  ghost function KeySet<T, K>(items: seq<seq<T>>, key: T -> K): set<K>
  {
    set b, i | 0 <= b < |items| && 0 <= i < |items[b]| :: key(items[b][i])
  }

  // All items in bucket order, each bucket from its head: the order of hash_for_each.
  function Flatten<T>(items: seq<seq<T>>): seq<T>
  {
    if items == [] then [] else items[0] + Flatten(items[1..])
  }

  function KeysOf<T, K>(xs: seq<T>, key: T -> K): (r: seq<K>)
    ensures |r| == |xs|
    ensures forall i :: 0 <= i < |r| ==> r[i] == key(xs[i])
  {
    seq(|xs|, i requires 0 <= i < |xs| => key(xs[i]))
  }

  predicate AllDifferent<K(==)>(ks: seq<K>)
  {
    forall i, j :: 0 <= i < j < |ks| ==> ks[i] != ks[j]
  }

  function Without<T>(xs: seq<T>, i: nat): seq<T>
    requires i < |xs|
  {
    xs[..i] + xs[i + 1..]
  }

  ghost predicate EveryItem<T>(items: seq<seq<T>>, p: T -> bool)
  {
    forall b, i :: 0 <= b < |items| && 0 <= i < |items[b]| ==> p(items[b][i])
  }

  lemma EveryAdded<T>(items: seq<seq<T>>, p: T -> bool, b: nat, x: T)
    requires EveryItem(items, p) && b < |items| && p(x)
    ensures EveryItem(items[b := [x] + items[b]], p)
  {
  }

  lemma EveryRemoved<T>(items: seq<seq<T>>, p: T -> bool, b: nat, n: nat)
    requires EveryItem(items, p) && b < |items| && n < |items[b]|
    ensures EveryItem(items[b := Without(items[b], n)], p)
  {
  }

  // Hashing is an arbitrary function into n buckets.
  ghost predicate IntoSlots<K(!new)>(slot: K -> nat, n: nat)
  {
    forall k :: slot(k) < n
  }

  // What a fetch of `max` may return: distinct members, as many as asked for or as there are.
  ghost predicate IsFetch<K(!new)>(r: seq<K>, s: set<K>, max: nat)
  {
    AllDifferent(r) && (forall k :: k in r ==> k in s) && |r| == if max < |s| then max else |s|
  }

  lemma NoKeys<T, K>(items: seq<seq<T>>, key: T -> K, slot: K -> nat)
    requires forall b :: 0 <= b < |items| ==> items[b] == []
    ensures Bucketed(items, key, slot) && KeySet(items, key) == {}
  {
  }

  // A key is registered iff its own bucket holds it.
  lemma KeyInBucket<T, K>(items: seq<seq<T>>, key: T -> K, slot: K -> nat, k: K)
    requires Bucketed(items, key, slot) && slot(k) < |items|
    ensures k in KeySet(items, key) <==> exists i :: 0 <= i < |items[slot(k)]| && key(items[slot(k)][i]) == k
  {
  }

  // Head insertion of a new key adds exactly that key.
  lemma AddedKey<T, K>(items: seq<seq<T>>, key: T -> K, slot: K -> nat, x: T)
    requires Bucketed(items, key, slot) && slot(key(x)) < |items|
    requires key(x) !in KeySet(items, key)
    ensures var items' := items[slot(key(x)) := [x] + items[slot(key(x))]];
            Bucketed(items', key, slot) && KeySet(items', key) == KeySet(items, key) + {key(x)}
  {
    var b := slot(key(x));
    var items' := items[b := [x] + items[b]];
    assert forall i :: 0 <= i < |items[b]| ==> items'[b][i + 1] == items[b][i];
    assert items'[b][0] == x;
    forall k | k in KeySet(items, key)
      ensures k in KeySet(items', key)
    {
      var c, i :| 0 <= c < |items| && 0 <= i < |items[c]| && key(items[c][i]) == k;
      assert c == b ==> items'[b][i + 1] == items[b][i];
      assert c != b ==> items'[c] == items[c];
    }
    forall k | k in KeySet(items', key)
      ensures k in KeySet(items, key) + {key(x)}
    {
      var c, i :| 0 <= c < |items'| && 0 <= i < |items'[c]| && key(items'[c][i]) == k;
      assert c == b && i > 0 ==> items'[b][i] == items[b][i - 1];
    }
  }

  // Unlinking an item removes exactly its key.
  lemma RemovedKey<T, K>(items: seq<seq<T>>, key: T -> K, slot: K -> nat, b: nat, n: nat)
    requires Bucketed(items, key, slot) && b < |items| && n < |items[b]|
    ensures var items' := items[b := Without(items[b], n)];
            Bucketed(items', key, slot) && KeySet(items', key) == KeySet(items, key) - {key(items[b][n])}
  {
    var items' := items[b := Without(items[b], n)];
    assert forall i :: 0 <= i < |items'[b]| ==> items'[b][i] == items[b][if i < n then i else i + 1];
    forall k | k in KeySet(items, key) && k != key(items[b][n])
      ensures k in KeySet(items', key)
    {
      var c, i :| 0 <= c < |items| && 0 <= i < |items[c]| && key(items[c][i]) == k;
      if c == b {
        assert items'[b][if i < n then i else i - 1] == items[b][i];
      } else {
        assert items'[c] == items[c];
      }
    }
    forall k | k in KeySet(items', key)
      ensures k in KeySet(items, key) && k != key(items[b][n])
    {
      var c, i :| 0 <= c < |items'| && 0 <= i < |items'[c]| && key(items'[c][i]) == k;
      if c == b {
        assert items'[b][i] == items[b][if i < n then i else i + 1];
      } else {
        assert items'[c] == items[c] && slot(k) == c && slot(key(items[b][n])) == b;
      }
    }
  }

  // ---------------------------------------------------------------- enumeration

  lemma {:induction false} FlattenHas<T>(items: seq<seq<T>>, x: T)
    ensures x in Flatten(items) <==> exists b :: 0 <= b < |items| && x in items[b]
  {
    if items != [] {
      FlattenHas(items[1..], x);
      if x in Flatten(items) && x !in items[0] {
        var b :| 0 <= b < |items[1..]| && x in items[1..][b];
        assert x in items[b + 1];
      }
      if exists b :: 0 <= b < |items| && x in items[b] {
        var b :| 0 <= b < |items| && x in items[b];
        assert b > 0 ==> x in items[1..][b - 1];
      }
    }
  }

  // No key in two places.
  ghost predicate Scattered<T, K>(items: seq<seq<T>>, key: T -> K)
  {
    && (forall b :: 0 <= b < |items| ==> AllDifferent(KeysOf(items[b], key)))
    && (forall b, c, x, y :: 0 <= b < c < |items| && x in items[b] && y in items[c] ==> key(x) != key(y))
  }

  lemma BucketedIsScattered<T, K>(items: seq<seq<T>>, key: T -> K, slot: K -> nat)
    requires Bucketed(items, key, slot)
    ensures Scattered(items, key)
  {
  }

  lemma {:induction false} FlattenDifferent<T, K>(items: seq<seq<T>>, key: T -> K)
    requires Scattered(items, key)
    ensures AllDifferent(KeysOf(Flatten(items), key))
  {
    if items != [] {
      var rest := items[1..];
      assert Scattered(rest, key) by {
        forall b, c, x, y | 0 <= b < c < |rest| && x in rest[b] && y in rest[c]
          ensures key(x) != key(y)
        {
          assert rest[b] == items[b + 1] && rest[c] == items[c + 1];
        }
      }
      FlattenDifferent(rest, key);
      var first, flat := items[0], Flatten(items);
      assert AllDifferent(KeysOf(first, key)) && AllDifferent(KeysOf(Flatten(rest), key));
      forall i, j | 0 <= i < j < |flat|
        ensures KeysOf(flat, key)[i] != KeysOf(flat, key)[j]
      {
        if j < |first| {
          assert KeysOf(first, key)[i] != KeysOf(first, key)[j];
        } else if i >= |first| {
          assert KeysOf(Flatten(rest), key)[i - |first|] != KeysOf(Flatten(rest), key)[j - |first|];
        } else {
          FlattenHas(rest, flat[j]);
          var c :| 0 <= c < |rest| && flat[j] in rest[c];
          assert flat[i] in items[0] && flat[j] in items[c + 1];
        }
      }
    }
  }

  // The enumeration lists every registered key exactly once, so it is as long as the set.
  lemma FlattenIsKeySet<T, K>(items: seq<seq<T>>, key: T -> K, slot: K -> nat)
    requires Bucketed(items, key, slot)
    ensures AllDifferent(KeysOf(Flatten(items), key))
    ensures forall k :: k in KeysOf(Flatten(items), key) <==> k in KeySet(items, key)
    ensures |Flatten(items)| == |KeySet(items, key)|
  {
    BucketedIsScattered(items, key, slot);
    FlattenDifferent(items, key);
    var ks := KeysOf(Flatten(items), key);
    forall k
      ensures k in ks <==> k in KeySet(items, key)
    {
      if k in ks {
        var n :| 0 <= n < |ks| && ks[n] == k;
        FlattenHas(items, Flatten(items)[n]);
        var b :| 0 <= b < |items| && Flatten(items)[n] in items[b];
        var i :| 0 <= i < |items[b]| && items[b][i] == Flatten(items)[n];
      }
      if k in KeySet(items, key) {
        var b, i :| 0 <= b < |items| && 0 <= i < |items[b]| && key(items[b][i]) == k;
        assert items[b][i] in items[b];
        FlattenHas(items, items[b][i]);
        var n :| 0 <= n < |Flatten(items)| && Flatten(items)[n] == items[b][i];
        assert ks[n] == k;
      }
    }
    DifferentCount(ks, KeySet(items, key));
  }

  lemma {:induction false} DifferentCount<K>(ks: seq<K>, s: set<K>)
    requires AllDifferent(ks) && forall k :: k in ks <==> k in s
    ensures |ks| == |s|
  {
    if ks == [] {
      assert s == {};
    } else {
      var front, last := ks[..|ks| - 1], ks[|ks| - 1];
      assert last !in front;
      assert forall k :: k in front <==> k in ks && k != last;
      DifferentCount(front, s - {last});
    }
  }

  // The first `max` items of the enumeration.
  lemma PrefixIsFetch<T, K(!new)>(items: seq<seq<T>>, key: T -> K, slot: K -> nat, r: seq<T>, max: nat)
    requires Bucketed(items, key, slot)
    requires r == if |Flatten(items)| <= max then Flatten(items) else Flatten(items)[..max]
    ensures IsFetch(KeysOf(r, key), KeySet(items, key), max)
  {
    FlattenIsKeySet(items, key, slot);
    var all, some := KeysOf(Flatten(items), key), KeysOf(r, key);
    assert forall i :: 0 <= i < |some| ==> some[i] == all[i];
  }

  // A fetch returns every member exactly if it has room for all.
  lemma {:induction false} FetchIsWhole<K(!new)>(r: seq<K>, s: set<K>, max: nat)
    requires IsFetch(r, s, max)
    ensures (forall k :: k in s ==> k in r) <==> |s| <= max
  {
    var listed := set k | k in r;
    DifferentCount(r, listed);
    assert listed <= s;
    if |s| <= max {
      SameSize(listed, s);
    } else {
      assert (forall k :: k in s ==> k in r) ==> listed == s;
    }
  }

  lemma SameSize<K>(a: set<K>, b: set<K>)
    requires a <= b && |a| == |b|
    ensures a == b
  {
    assert b == a + (b - a);
  }
}
