// A kernel hash table: an array of bucket heads over doubly linked nodes, with head
// insertion, unlinking of a known node, a search of one bucket and a walk over all.
module HashTable {
  import opened Buckets
  import RcuHeap

  const SLOTS := RcuHeap.SLOTS

  // `prev` is null where pprev points to the bucket head.
  class Node<T> {
    const item: T
    var next: Node?<T>
    var prev: Node?<T>
    ghost const slot: nat

    constructor (item: T, next: Node?<T>, ghost slot: nat)
      ensures this.item == item && this.next == next && this.prev == null && this.slot == slot
    {
      this.item, this.next, this.prev, this.slot := item, next, null, slot;
    }
  }

  function ItemsOf<T>(c: seq<Node<T>>): (r: seq<T>)
    ensures |r| == |c| && forall i :: 0 <= i < |c| ==> r[i] == c[i].item
  {
    seq(|c|, i requires 0 <= i < |c| => c[i].item)
  }

  lemma ItemsWithout<T>(c: seq<Node<T>>, i: nat)
    requires i < |c|
    ensures ItemsOf(Without(c, i)) == Without(ItemsOf(c), i)
  {
  }

  ghost function After<T>(c: seq<Node<T>>, i: nat): Node?<T>
  {
    if i + 1 < |c| then c[i + 1] else null
  }

  ghost function Before<T>(c: seq<Node<T>>, i: nat): Node?<T>
  {
    if 0 < i <= |c| then c[i - 1] else null
  }

  class HashTable<T> {
    const heads: array<Node?<T>>
    ghost var items: seq<seq<T>>  // what each bucket holds, from its head
    ghost var chains: seq<seq<Node<T>>>  // and the nodes that hold it
    ghost var nodes: set<Node<T>>
    ghost var Repr: set<object>

    ghost predicate Valid()
      reads this, Repr
    {
      && Repr == {this, heads} + nodes
      && heads.Length == SLOTS == |chains| == |items|
      && (forall b :: 0 <= b < SLOTS ==> ChainOk(b))
    }

    // Bucket b is the list its chain says.
    ghost predicate ChainOk(b: nat)
      requires b < heads.Length && b < |chains| && b < |items|
      reads this, heads, nodes
    {
      var c := chains[b];
      && items[b] == ItemsOf(c)
      && (forall i :: 0 <= i < |c| ==> c[i] in nodes && c[i].slot == b)
      && heads[b] == (if c == [] then null else c[0])
      && (forall i {:trigger c[i].next} :: 0 <= i < |c| ==> c[i].next == After(c, i))
      && (forall i {:trigger c[i].prev} :: 0 <= i < |c| ==> c[i].prev == Before(c, i))
      && (forall i, j :: 0 <= i < j < |c| ==> c[i] != c[j])
    }

    constructor ()
      ensures Valid() && fresh(Repr)
      ensures forall b :: 0 <= b < SLOTS ==> items[b] == []
    {
      heads := new Node?<T>[SLOTS](_ => null);
      chains := seq(SLOTS, _ => []);
      items := seq(SLOTS, _ => []);
      nodes := {};
      Repr := {this, heads};
    }

    // hash_add_rcu
    method Add(b: nat, x: T)
      requires Valid() && b < SLOTS
      modifies Repr
      ensures Valid() && fresh(Repr - old(Repr))
      ensures items == old(items)[b := [x] + old(items[b])]
    {
      assert ChainOk(b);
      var first := heads[b];
      var n := new Node(x, first, b);
      ghost var c := chains[b];
      if first != null {
        assert first == c[0] && first in nodes;
        first.prev := n;
      }
      heads[b] := n;
      nodes := nodes + {n};
      Repr := Repr + {n};
      chains := chains[b := [n] + c];
      items := items[b := [x] + items[b]];
      assert ItemsOf([n] + c) == [x] + ItemsOf(c);
      GrownChain(b, n, c);
      OthersKeep(b);
    }

    lemma GrownChain(b: nat, n: Node<T>, c: seq<Node<T>>)
      requires b < heads.Length && b < |chains| && b < |items|
      requires chains[b] == [n] + c && items[b] == ItemsOf(chains[b])
      requires heads[b] == n && n in nodes && n.slot == b && n.prev == null
      requires n.next == if c == [] then null else c[0]
      requires forall j :: 0 <= j < |c| ==> c[j] in nodes && c[j].slot == b && c[j] != n
      requires forall j {:trigger c[j].next} :: 0 <= j < |c| ==> c[j].next == After(c, j)
      requires forall j {:trigger c[j].prev} :: 0 <= j < |c| ==> c[j].prev == if j == 0 then n else c[j - 1]
      requires forall j, k :: 0 <= j < k < |c| ==> c[j] != c[k]
      ensures ChainOk(b)
    {
      var d := chains[b];
      assert forall i :: 0 < i < |d| ==> d[i] == c[i - 1];
    }

    // A change confined to bucket b leaves the other buckets as they were.
    twostate lemma OthersKeep(b: nat)
      requires old(Valid()) && b < SLOTS && heads.Length == |chains| == |items| == SLOTS
      requires forall c :: 0 <= c < SLOTS && c != b ==>
                 heads[c] == old(heads[c]) && chains[c] == old(chains[c]) && items[c] == old(items[c])
      requires old(nodes) <= nodes
      requires forall n :: n in old(nodes) && n.slot != b ==> n.next == old(n.next) && n.prev == old(n.prev)
      ensures forall c :: 0 <= c < SLOTS && c != b ==> ChainOk(c)
    {
      forall c | 0 <= c < SLOTS && c != b
        ensures ChainOk(c)
      {
        assert old(ChainOk(c));
      }
    }

    // The node of the i-th item of bucket b.
    ghost predicate NodeAt(b: nat, i: nat, n: Node<T>)
      reads this
    {
      && b < |chains| && b < |items| && i < |chains[b]| && i < |items[b]|
      && n == chains[b][i] && n.item == items[b][i] && n in nodes
    }

    // The loop of hash_for_each_possible: the first node of the bucket that matches.
    method Find(b: nat, matches: T -> bool) returns (n: Node?<T>, ghost i: nat)
      requires Valid() && b < SLOTS
      ensures n == null ==> forall j :: 0 <= j < |items[b]| ==> !matches(items[b][j])
      ensures n != null ==>
                && NodeAt(b, i, n) && matches(n.item)
                && forall j :: 0 <= j < i ==> !matches(items[b][j])
    {
      assert ChainOk(b);
      n, i := heads[b], 0;
      while n != null && !matches(n.item)
        invariant i <= |chains[b]|
        invariant n == if i < |chains[b]| then chains[b][i] else null
        invariant forall j :: 0 <= j < i ==> !matches(items[b][j])
        decreases |chains[b]| - i
      {
        n := n.next;
        i := i + 1;
      }
    }

    // hash_del_rcu
    method Delete(b: nat, n: Node<T>, ghost i: nat)
      requires Valid() && b < SLOTS && NodeAt(b, i, n)
      modifies Repr
      ensures Valid() && Repr == old(Repr)
      ensures items == old(items)[b := Without(old(items[b]), i)]
    {
      ghost var c := chains[b];
      assert ChainOk(b);
      Unhook(b, n, i);
      chains := chains[b := Without(c, i)];
      items := items[b := Without(items[b], i)];
      ItemsWithout(c, i);
      ShrunkChain(b, c, i);
      OthersKeep(b);
    }

    // Bucket b links the nodes of c but for the i-th.
    ghost predicate Skips(b: nat, c: seq<Node<T>>, i: nat)
      requires b < heads.Length && i < |c|
      reads heads, c
    {
      && heads[b] == (if i > 0 then c[0] else After(c, i))
      && (forall j {:trigger c[j].next} :: 0 <= j < |c| && j != i ==> c[j].next == After(c, if j == i - 1 then i else j))
      && (forall j {:trigger c[j].prev} :: 0 <= j < |c| && j != i ==> c[j].prev == Before(c, if j == i + 1 then i else j))
    }

    lemma ShrunkChain(b: nat, c: seq<Node<T>>, i: nat)
      requires b < heads.Length && b < |chains| && b < |items| && i < |c|
      requires Skips(b, c, i) && chains[b] == Without(c, i) && items[b] == ItemsOf(chains[b])
      requires forall n :: n in c ==> n in nodes && n.slot == b
      requires forall j, k :: 0 <= j < k < |c| ==> c[j] != c[k]
      ensures ChainOk(b)
    {
      var d := chains[b];
      forall j | 0 <= j < |d|
        ensures d[j].next == After(d, j) && d[j].prev == Before(d, j)
      {
        ShrunkLink(b, c, i, j);
      }
      assert (d == [] ==> heads[b] == null) && (d != [] ==> heads[b] == d[0]);
      ShrunkMembers(c, i);
      hide Skips, Without, ItemsOf, After, Before;
    }

    // The nodes of the shorter chain are still different nodes of the longer one.
    lemma ShrunkMembers(c: seq<Node<T>>, i: nat)
      requires i < |c| && forall j, k :: 0 <= j < k < |c| ==> c[j] != c[k]
      ensures var d := Without(c, i);
              && (forall j :: 0 <= j < |d| ==> d[j] in c)
              && (forall j, k :: 0 <= j < k < |d| ==> d[j] != d[k])
    {
      var d := Without(c, i);
      assert forall j :: 0 <= j < |d| ==> d[j] == c[if j < i then j else j + 1];
    }

    lemma ShrunkLink(b: nat, c: seq<Node<T>>, i: nat, j: nat)
      requires b < heads.Length && i < |c| && j < |c| - 1 && Skips(b, c, i)
      ensures var d := Without(c, i);
              && d[j].next == After(d, j) && d[j].prev == Before(d, j)
              && (j == 0 ==> heads[b] == d[j])
    {
      var at := if j < i then j else j + 1;
      assert Without(c, i)[j] == c[at];
      assert c[at].next == After(c, if at == i - 1 then i else at);
      assert c[at].prev == Before(c, if at == i + 1 then i else at);
    }

    // The pointer part of hlist_del: the neighbours of the node point past it.
    method Unhook(b: nat, n: Node<T>, ghost i: nat)
      requires Valid() && b < SLOTS && NodeAt(b, i, n)
      modifies heads, nodes
      ensures Skips(b, chains[b], i)
      ensures forall d :: 0 <= d < SLOTS && d != b ==> heads[d] == old(heads[d])
      ensures forall m :: m in nodes && m.slot != b ==> m.next == old(m.next) && m.prev == old(m.prev)
    {
      assert ChainOk(b);
      var prev, next := n.prev, n.next;
      if prev == null {
        heads[b] := next;
      } else {
        prev.next := next;
      }
      if next != null {
        next.prev := prev;
      }
    }

    // The inner loop of hash_for_each: copies items of bucket b until `max` are copied.
    method CollectBucket(b: nat, max: nat, r0: seq<T>) returns (r: seq<T>, full: bool)
      requires Valid() && b < SLOTS && |r0| <= max
      ensures |r| <= max
      ensures if full then |r| == max && r <= r0 + items[b] else r == r0 + items[b]
    {
      assert ChainOk(b);
      r, full := r0, false;
      var n := heads[b];
      ghost var i := 0;
      while n != null
        invariant i <= |chains[b]| && |r| <= max
        invariant n == if i < |chains[b]| then chains[b][i] else null
        invariant r == r0 + items[b][..i]
        decreases |chains[b]| - i
      {
        if |r| < max {
          assert items[b][..i + 1] == items[b][..i] + [n.item];
          r := r + [n.item];
          n := n.next;
          i := i + 1;
        } else {
          assert items[b] == items[b][..i] + items[b][i..];
          return r, true;
        }
      }
    }

    // The nested loops of hash_for_each: the first `max` items of the whole walk.
    method Collect(max: nat) returns (r: seq<T>)
      requires Valid()
      ensures r == if |Flatten(items)| <= max then Flatten(items) else Flatten(items)[..max]
    {
      r := [];
      var b := 0;
      while b < SLOTS
        invariant b <= SLOTS && |r| <= max
        invariant r + Flatten(items[b..]) == Flatten(items)
      {
        assert items[b..] == [items[b]] + items[b + 1..];
        assert r + Flatten(items[b..]) == (r + items[b]) + Flatten(items[b + 1..]);
        var full;
        r, full := CollectBucket(b, max, r);
        if full {
          return;
        }
        b := b + 1;
      }
    }
  }
}
