// The bucketed lists behind the three registries: head insertion and unlinking as
// hash_add_rcu and hash_del_rcu do them, on nodes that are numbered in the order in which
// they were linked. An unlinked node keeps its `next`.
module RcuHeap {
  import opened Wrappers

  // One key space for the three hash tables; their buckets are disjoint.
  datatype Key = Sys(nr: nat) | Uid(uid: nat) | Prog(name: seq<nat>)

  datatype Bucket = Bucket(table: nat, slot: nat)

  const SLOTS := 256  // 8 hash bits

  function TableOf(k: Key): nat
  {
    match k
    case Sys(_) => 0
    case Uid(_) => 1
    case Prog(_) => 2
  }

  // The bucketing function is arbitrary, but keeps the tables apart.
  type Bucketing = Key -> Bucket

  ghost predicate Proper(bucket: Bucketing)
  {
    forall k :: bucket(k).table == TableOf(k) && bucket(k).slot < SLOTS
  }

  // What a syscall-table slot, or the saved entry of a node, can hold.
  datatype Entry = NoEntry | Wrapper | Original(address: nat)

  datatype Life = Linked | Gone(at: nat)

  // `pprev` is the node whose `next` points here, or None for the bucket head.
  datatype Node = Node(
    key: Key, orig: Entry, next: Option<nat>, pprev: Option<nat>,
    life: Life, born: nat, statsFreed: bool, freed: bool)

  // `clock` counts links and unlinks; `born` and `at` are its readings.
  datatype Heap = Heap(nodes: seq<Node>, heads: map<Bucket, nat>, clock: nat)

  function Head(h: Heap, b: Bucket): Option<nat>
  {
    if b in h.heads then Some(h.heads[b]) else None
  }

  function SetPprev(nodes: seq<Node>, at: Option<nat>, p: Option<nat>): (r: seq<Node>)
    requires at.Some? ==> at.value < |nodes|
    ensures |r| == |nodes|
    ensures forall i :: 0 <= i < |r| ==> r[i] == if at == Some(i) then nodes[i].(pprev := p) else nodes[i]
  {
    if at.Some? then nodes[at.value := nodes[at.value].(pprev := p)] else nodes
  }

  function SetNext(nodes: seq<Node>, at: Option<nat>, n: Option<nat>): (r: seq<Node>)
    requires at.Some? ==> at.value < |nodes|
    ensures |r| == |nodes|
    ensures forall i :: 0 <= i < |r| ==> r[i] == if at == Some(i) then nodes[i].(next := n) else nodes[i]
  {
    if at.Some? then nodes[at.value := nodes[at.value].(next := n)] else nodes
  }

  // hlist_add_head_rcu
  function Link(h: Heap, bucket: Bucketing, key: Key, orig: Entry): Heap
    requires HeadsOk(h, bucket)
  {
    var b := bucket(key);
    var first := Head(h, b);
    var n := |h.nodes|;
    Heap(SetPprev(h.nodes, first, Some(n)) + [Node(key, orig, first, None, Linked, h.clock, false, false)],
         h.heads[b := n], h.clock + 1)
  }

  // hlist_del_rcu
  function Unlink(h: Heap, bucket: Bucketing, d: nat): Heap
    requires Removable(h, bucket, d)
  {
    var node := h.nodes[d];
    var b := bucket(node.key);
    var nodes1 := SetPprev(SetNext(h.nodes, node.pprev, node.next), node.next, node.pprev);
    Heap(nodes1[d := node.(life := Gone(h.clock))],
         if node.pprev.Some? then h.heads
         else if node.next.Some? then h.heads[b := node.next.value]
         else h.heads - {b},
         h.clock + 1)
  }

  predicate IsLinked(h: Heap, i: nat)
  {
    i < |h.nodes| && h.nodes[i].life == Linked
  }

  predicate SameBucket(h: Heap, bucket: Bucketing, i: nat, j: nat)
    requires i < |h.nodes| && j < |h.nodes|
  {
    bucket(h.nodes[i].key) == bucket(h.nodes[j].key)
  }

  // Node j was still linked at clock reading t.
  predicate AliveAfter(h: Heap, j: nat, t: nat)
    requires j < |h.nodes|
  {
    h.nodes[j].life.Gone? ==> h.nodes[j].life.at > t
  }

  // A bucket head is the newest linked node of its bucket, and has no predecessor.
  predicate HeadsOk(h: Heap, bucket: Bucketing)
  {
    && (forall b :: b in h.heads ==>
          IsLinked(h, h.heads[b]) && bucket(h.nodes[h.heads[b]].key) == b
          && h.nodes[h.heads[b]].pprev == None)
    && (forall m :: 0 <= m < |h.nodes| && h.nodes[m].life == Linked ==>
          bucket(h.nodes[m].key) in h.heads && m <= h.heads[bucket(h.nodes[m].key)])
  }

  // Links go to strictly older nodes of the same bucket. A linked node points to a linked
  // one; an unlinked node points to one that was still linked when it was unlinked.
  predicate LinkOk(h: Heap, bucket: Bucketing, i: nat)
    requires i < |h.nodes|
  {
    h.nodes[i].next.Some? ==>
      var j := h.nodes[i].next.value;
      && j < i && SameBucket(h, bucket, i, j)
      && (h.nodes[i].life == Linked ==> h.nodes[j].life == Linked && h.nodes[j].pprev == Some(i))
      && (h.nodes[i].life.Gone? ==> AliveAfter(h, j, h.nodes[i].life.at))
  }

  predicate PprevOk(h: Heap, bucket: Bucketing, j: nat)
    requires j < |h.nodes|
  {
    h.nodes[j].life == Linked ==>
      match h.nodes[j].pprev
      case None => Head(h, bucket(h.nodes[j].key)) == Some(j)
      case Some(p) => IsLinked(h, p) && h.nodes[p].next == Some(j)
  }

  predicate LinksOk(h: Heap, bucket: Bucketing)
  {
    forall i :: 0 <= i < |h.nodes| ==> LinkOk(h, bucket, i) && PprevOk(h, bucket, i)
  }

  // No link skips a linked node: every node, unlinked ones included, still reaches every
  // older linked node of its bucket.
  predicate NoSkips(h: Heap, bucket: Bucketing)
  {
    forall i, m :: 0 <= m < i < |h.nodes| && h.nodes[m].life == Linked && SameBucket(h, bucket, i, m) ==>
      h.nodes[i].next.Some? && h.nodes[i].next.value >= m
  }

  // Two nodes with one key never live at the same time.
  predicate KeysUnique(h: Heap)
  {
    forall i, j :: 0 <= i < j < |h.nodes| && h.nodes[i].key == h.nodes[j].key ==>
      h.nodes[i].life.Gone? && h.nodes[i].life.at < h.nodes[j].born
  }

  predicate TimesOk(h: Heap)
  {
    forall i :: 0 <= i < |h.nodes| ==>
      && h.nodes[i].born < h.clock
      && (h.nodes[i].life.Gone? ==> h.nodes[i].born < h.nodes[i].life.at < h.clock)
  }

  predicate HeapOk(h: Heap, bucket: Bucketing)
  {
    HeadsOk(h, bucket) && LinksOk(h, bucket) && NoSkips(h, bucket) && KeysUnique(h) && TimesOk(h)
  }

  // No linked node carries the key.
  predicate Absent(h: Heap, k: Key)
  {
    forall i :: 0 <= i < |h.nodes| && h.nodes[i].key == k ==> h.nodes[i].life.Gone?
  }

  predicate Removable(h: Heap, bucket: Bucketing, d: nat)
  {
    IsLinked(h, d) && LinkOk(h, bucket, d) && PprevOk(h, bucket, d)
  }

  // ---------------------------------------------------------------- linking

  lemma LinkFields(h: Heap, bucket: Bucketing, key: Key, orig: Entry)
    requires HeadsOk(h, bucket)
    ensures var r, n, first := Link(h, bucket, key, orig), |h.nodes|, Head(h, bucket(key));
            && |r.nodes| == n + 1
            && r.nodes[n] == Node(key, orig, first, None, Linked, h.clock, false, false)
            && (forall i :: 0 <= i < n ==>
                  r.nodes[i] == if first == Some(i) then h.nodes[i].(pprev := Some(n)) else h.nodes[i])
            && r.heads == h.heads[bucket(key) := n]
            && r.clock == h.clock + 1
  {
  }

  lemma LinkKeepsLinks(h: Heap, bucket: Bucketing, key: Key, orig: Entry)
    requires HeadsOk(h, bucket) && LinksOk(h, bucket)
    ensures LinksOk(Link(h, bucket, key, orig), bucket)
  {
    LinkFields(h, bucket, key, orig);
    var r := Link(h, bucket, key, orig);
    forall i | 0 <= i < |r.nodes|
      ensures LinkOk(r, bucket, i)
    {
      if i < |h.nodes| {
        assert LinkOk(h, bucket, i);
      }
    }
    forall i | 0 <= i < |r.nodes|
      ensures PprevOk(r, bucket, i)
    {
      if i < |h.nodes| {
        assert PprevOk(h, bucket, i);
      }
    }
  }

  lemma LinkKeepsHeads(h: Heap, bucket: Bucketing, key: Key, orig: Entry)
    requires HeadsOk(h, bucket)
    ensures HeadsOk(Link(h, bucket, key, orig), bucket)
  {
    LinkFields(h, bucket, key, orig);
  }

  lemma LinkKeepsReach(h: Heap, bucket: Bucketing, key: Key, orig: Entry)
    requires HeadsOk(h, bucket) && NoSkips(h, bucket)
    ensures NoSkips(Link(h, bucket, key, orig), bucket)
  {
    LinkFields(h, bucket, key, orig);
  }

  lemma LinkKeepsTimes(h: Heap, bucket: Bucketing, key: Key, orig: Entry)
    requires HeadsOk(h, bucket) && TimesOk(h) && KeysUnique(h) && Absent(h, key)
    ensures TimesOk(Link(h, bucket, key, orig)) && KeysUnique(Link(h, bucket, key, orig))
  {
    LinkFields(h, bucket, key, orig);
  }

  lemma LinkKeepsOk(h: Heap, bucket: Bucketing, key: Key, orig: Entry)
    requires HeapOk(h, bucket) && Absent(h, key)
    ensures HeapOk(Link(h, bucket, key, orig), bucket)
  {
    LinkKeepsLinks(h, bucket, key, orig);
    LinkKeepsHeads(h, bucket, key, orig);
    LinkKeepsReach(h, bucket, key, orig);
    LinkKeepsTimes(h, bucket, key, orig);
  }

  // ---------------------------------------------------------------- unlinking

  lemma UnlinkFields(h: Heap, bucket: Bucketing, d: nat)
    requires Removable(h, bucket, d)
    ensures var r, node := Unlink(h, bucket, d), h.nodes[d];
            && |r.nodes| == |h.nodes| && r.clock == h.clock + 1
            && r.nodes[d] == node.(life := Gone(h.clock))
            && (forall i :: 0 <= i < |h.nodes| && i != d ==>
                  r.nodes[i] == h.nodes[i].(next := if node.pprev == Some(i) then node.next else h.nodes[i].next,
                                            pprev := if node.next == Some(i) then node.pprev else h.nodes[i].pprev))
            && r.heads == if node.pprev.Some? then h.heads
                          else if node.next.Some? then h.heads[bucket(node.key) := node.next.value]
                          else h.heads - {bucket(node.key)}
  {
  }

  // Readers follow heads and `next`. A linking changes the head of one bucket only.
  lemma LinkIsOneWrite(h: Heap, bucket: Bucketing, key: Key, orig: Entry)
    requires HeadsOk(h, bucket)
    ensures var r := Link(h, bucket, key, orig);
            && (forall i :: 0 <= i < |h.nodes| ==> r.nodes[i].next == h.nodes[i].next)
            && (forall b :: b != bucket(key) ==> Head(r, b) == Head(h, b))
  {
    LinkFields(h, bucket, key, orig);
    hide Link;
  }

  // An unlinking changes the one place that points to the node: its bucket's head, or the
  // `next` of its predecessor.
  lemma UnlinkIsOneWrite(h: Heap, bucket: Bucketing, d: nat)
    requires Removable(h, bucket, d)
    ensures var r, at := Unlink(h, bucket, d), h.nodes[d].pprev;
            && (forall i :: 0 <= i < |h.nodes| && at != Some(i) ==> r.nodes[i].next == h.nodes[i].next)
            && (forall b :: b != bucket(h.nodes[d].key) || at.Some? ==> Head(r, b) == Head(h, b))
  {
    UnlinkFields(h, bucket, d);
    hide Unlink;
  }

  lemma UnlinkKeepsLinks(h: Heap, bucket: Bucketing, d: nat)
    requires Removable(h, bucket, d) && LinksOk(h, bucket) && TimesOk(h)
    ensures forall i :: 0 <= i < |h.nodes| ==> LinkOk(Unlink(h, bucket, d), bucket, i)
  {
    UnlinkFields(h, bucket, d);
    hide Unlink;
    var r := Unlink(h, bucket, d);
    forall i | 0 <= i < |r.nodes|
      ensures LinkOk(r, bucket, i)
    {
      assert LinkOk(h, bucket, i);
      assert PprevOk(h, bucket, i);
      if i != d && r.nodes[i].next.Some? {
        var j := r.nodes[i].next.value;
        assert j < |h.nodes|;
        assert LinkOk(h, bucket, j);
      }
    }
  }

  lemma UnlinkKeepsPprevs(h: Heap, bucket: Bucketing, d: nat)
    requires Removable(h, bucket, d) && HeadsOk(h, bucket) && LinksOk(h, bucket)
    ensures forall i :: 0 <= i < |h.nodes| ==> PprevOk(Unlink(h, bucket, d), bucket, i)
  {
    UnlinkFields(h, bucket, d);
    hide Unlink;
    var r := Unlink(h, bucket, d);
    forall i | 0 <= i < |r.nodes| && r.nodes[i].life == Linked
      ensures PprevOk(r, bucket, i)
    {
      assert PprevOk(h, bucket, i);
      if h.nodes[d].next == Some(i) {
        assert h.nodes[i].pprev == Some(d);
      } else {
        assert h.nodes[i].pprev != Some(d);
      }
    }
  }

  lemma UnlinkKeepsHeads(h: Heap, bucket: Bucketing, d: nat)
    requires Removable(h, bucket, d) && HeadsOk(h, bucket) && LinksOk(h, bucket) && NoSkips(h, bucket)
    ensures HeadsOk(Unlink(h, bucket, d), bucket)
  {
    UnlinkFields(h, bucket, d);
    hide Unlink, LinksOk;
    var r := Unlink(h, bucket, d);
    forall m | 0 <= m < |r.nodes| && r.nodes[m].life == Linked
      ensures bucket(r.nodes[m].key) in r.heads && m <= r.heads[bucket(r.nodes[m].key)]
    {
      assert h.nodes[m].life == Linked && m != d;
      assert m < d && bucket(h.nodes[m].key) == bucket(h.nodes[d].key) ==> SameBucket(h, bucket, d, m);
    }
  }

  lemma UnlinkKeepsReach(h: Heap, bucket: Bucketing, d: nat)
    requires Removable(h, bucket, d) && LinksOk(h, bucket) && NoSkips(h, bucket)
    ensures NoSkips(Unlink(h, bucket, d), bucket)
  {
    UnlinkFields(h, bucket, d);
    hide Unlink;
    var r := Unlink(h, bucket, d);
    forall i, m | 0 <= m < i < |r.nodes| && r.nodes[m].life == Linked && SameBucket(r, bucket, i, m)
      ensures r.nodes[i].next.Some? && r.nodes[i].next.value >= m
    {
      assert SameBucket(h, bucket, i, m);
      if h.nodes[d].pprev == Some(i) {
        assert LinkOk(h, bucket, i);
        assert SameBucket(h, bucket, d, m);
      }
    }
  }

  lemma UnlinkKeepsTimes(h: Heap, bucket: Bucketing, d: nat)
    requires Removable(h, bucket, d) && TimesOk(h) && KeysUnique(h)
    ensures TimesOk(Unlink(h, bucket, d)) && KeysUnique(Unlink(h, bucket, d))
  {
    UnlinkFields(h, bucket, d);
    hide Unlink;
  }

  lemma UnlinkKeepsOk(h: Heap, bucket: Bucketing, d: nat)
    requires HeapOk(h, bucket) && IsLinked(h, d)
    ensures Removable(h, bucket, d) && HeapOk(Unlink(h, bucket, d), bucket)
  {
    assert LinkOk(h, bucket, d) && PprevOk(h, bucket, d);
    UnlinkFields(h, bucket, d);
    hide Unlink;
    UnlinkKeepsLinks(h, bucket, d);
    UnlinkKeepsPprevs(h, bucket, d);
    UnlinkKeepsHeads(h, bucket, d);
    UnlinkKeepsReach(h, bucket, d);
    UnlinkKeepsTimes(h, bucket, d);
  }
}
