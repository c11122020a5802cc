// Lock-free lookups and enumerations under any interleaving with writers.
module RcuLookup {
  import opened Wrappers
  import opened RcuHeap
  import opened Rcu
  import opened RcuSafety
  import opened RcuReclaim
  import opened RcuTheorems

  // ---------------------------------------------------------------- one step of a run

  // Nodes are only added, linked, and only leave the lists.
  predicate Grown(h: Heap, h': Heap)
  {
    && |h.nodes| <= |h'.nodes|
    && (forall n :: 0 <= n < |h.nodes| ==>
          && h'.nodes[n].key == h.nodes[n].key && h'.nodes[n].orig == h.nodes[n].orig
          && (h.nodes[n].life.Gone? ==> h'.nodes[n].life == h.nodes[n].life))
    && (forall n :: |h.nodes| <= n < |h'.nodes| ==> h'.nodes[n].life == Linked)
  }

  lemma HeapGrows(s: State, bucket: Bucketing, k: Step, s': State)
    requires RunInv(s, bucket) && Next(s, bucket, k, s')
    ensures Grown(s.heap, s'.heap)
  {
    if k.Write? {
      var w := s.writers[k.w];
      assert HolderOk(s, w) && WriterFits(s, w);
      NodesStep(s, bucket, w);
    }
  }

  lemma StepHeap(ss: seq<State>, ks: seq<Step>, bucket: Bucketing, i: nat)
    requires IsRun(ss, ks, bucket) && i < |ks|
    ensures Grown(ss[i].heap, ss[i + 1].heap)
  {
    hide RunInv, Next, Grown;
    RunInvHolds(ss, ks, bucket, i);
    HeapGrows(ss[i], bucket, ks[i], ss[i + 1]);
  }

  lemma ReaderMoves(s: State, bucket: Bucketing, k: Step, s': State, r: nat)
    requires RunInv(s, bucket) && Next(s, bucket, k, s') && r < |s.readers|
    requires s.readers[r].Inside? && r < |s'.readers| && s'.readers[r].Inside?
    ensures HeapOk(s.heap, bucket) && ReaderOk(s.heap, bucket, s.readers[r])
    ensures s'.readers[r] == s.readers[r]
         || (!s.readers[r].pc.Ended? && s'.readers[r] == ReadStep(s.heap, s.readers[r]) && s'.heap == s.heap)
  {
  }

  // An open section moves only by its own reads, one step of the loop at a time.
  lemma StepReader(ss: seq<State>, ks: seq<Step>, bucket: Bucketing, i: nat, r: nat)
    requires IsRun(ss, ks, bucket) && i < |ks| && r < |ss[i].readers|
    requires ss[i].readers[r].Inside? && r < |ss[i + 1].readers| && ss[i + 1].readers[r].Inside?
    ensures HeapOk(ss[i].heap, bucket) && ReaderOk(ss[i].heap, bucket, ss[i].readers[r])
    ensures ss[i + 1].readers[r] == ss[i].readers[r]
         || (!ss[i].readers[r].pc.Ended? && ss[i + 1].readers[r] == ReadStep(ss[i].heap, ss[i].readers[r])
             && ss[i + 1].heap == ss[i].heap)
  {
    hide RunInv, Next, HeapOk, ReaderOk;
    RunInvHolds(ss, ks, bucket, i);
    ReaderMoves(ss[i], bucket, ks[i], ss[i + 1], r);
  }

  // A key whose node leaves is absent right after.
  lemma StepAbsent(ss: seq<State>, ks: seq<Step>, bucket: Bucketing, i: nat, n: nat)
    requires IsRun(ss, ks, bucket) && i < |ks|
    requires IsLinked(ss[i].heap, n) && !IsLinked(ss[i + 1].heap, n)
    ensures Absent(ss[i + 1].heap, ss[i].heap.nodes[n].key)
  {
    RunInvHolds(ss, ks, bucket, i);
    assert Next(ss[i], bucket, ks[i], ss[i + 1]);
    if ks[i].Write? {
      var w := ss[i].writers[ks[i].w];
      assert HolderOk(ss[i], w) && WriterFits(ss[i], w);
      NodesStep(ss[i], bucket, w);
      AbsentStep(ss[i], bucket, w, ss[i].heap.nodes[n].key);
    }
  }

  // ---------------------------------------------------------------- a read section

  // Reader r has just opened a section, and read nothing yet.
  predicate AtStart(s: State, bucket: Bucketing, r: nat, goal: Goal)
  {
    r < |s.readers| && s.readers[r] == Inside(s.heap.clock, goal, AtHead(SlotOf(bucket, goal), []), None)
  }

  lemma OpenStarts(s: State, bucket: Bucketing, r: nat, goal: Goal)
    requires Shape(s, bucket) && Enabled(s, Open(r, goal))
    ensures AtStart(Apply(s, bucket, Open(r, goal)), bucket, r, goal)
  {
  }

  // States a to b of a run lie in one section of reader r, opened in state a.
  ghost predicate IsSection(ss: seq<State>, ks: seq<Step>, bucket: Bucketing, r: nat, goal: Goal, a: nat, b: nat)
  {
    && IsRun(ss, ks, bucket) && a <= b < |ss|
    && AtStart(ss[a], bucket, r, goal)
    && (forall x :: a <= x <= b ==> r < |ss[x].readers| && ss[x].readers[r].Inside?)
  }

  lemma {:induction false} SectionFacts(ss: seq<State>, ks: seq<Step>, bucket: Bucketing, r: nat, goal: Goal, a: nat, b: nat)
    requires IsSection(ss, ks, bucket, r, goal, a, b)
    ensures ss[b].readers[r].goal == goal && ss[b].readers[r].since == ss[a].heap.clock
    decreases b
  {
    if b > a {
      SectionFacts(ss, ks, bucket, r, goal, a, b - 1);
      StepReader(ss, ks, bucket, b - 1, r);
    }
  }

  lemma SectionInv(ss: seq<State>, ks: seq<Step>, bucket: Bucketing, r: nat, goal: Goal, a: nat, b: nat)
    requires IsSection(ss, ks, bucket, r, goal, a, b)
    ensures HeapOk(ss[b].heap, bucket) && ReaderOk(ss[b].heap, bucket, ss[b].readers[r])
    ensures CallOk(ss[b], ss[b].readers[r])
  {
    RunInvHolds(ss, ks, bucket, b);
  }

  // ---------------------------------------------------------------- one step of a section

  // A lookup of the key of node n has not passed n.
  predicate Ahead(h: Heap, bucket: Bucketing, r: Reader, n: nat)
    requires n < |h.nodes|
  {
    r.Inside? && r.goal == Find(h.nodes[n].key) &&
    match r.pc
    case AtHead(slot, _) => slot == bucket(h.nodes[n].key).slot
    case AtNode(slot, cur, _) => slot == bucket(h.nodes[n].key).slot && cur >= n
    case Ended(hit, _) => hit == Some(n)
  }

  // An enumeration has copied n, has not passed it, or is full.
  predicate Pending(h: Heap, bucket: Bucketing, r: Reader, n: nat)
    requires n < |h.nodes|
  {
    r.Inside? && r.goal.All? && r.goal.table == bucket(h.nodes[n].key).table &&
    (n in r.pc.seen ||
     match r.pc
     case AtHead(slot, _) => slot <= bucket(h.nodes[n].key).slot
     case AtNode(slot, cur, _) =>
       slot < bucket(h.nodes[n].key).slot || (slot == bucket(h.nodes[n].key).slot && cur >= n)
     case Ended(_, seen) => |seen| == r.goal.cap)
  }

  lemma AheadRead(h: Heap, bucket: Bucketing, r: Reader, n: nat)
    requires HeapOk(h, bucket) && Proper(bucket) && ReaderOk(h, bucket, r) && IsLinked(h, n)
    requires Ahead(h, bucket, r, n)
    ensures Ahead(h, bucket, ReadStep(h, r), n)
  {
    if r.pc.AtNode? && r.pc.cur > n {
      assert SameBucket(h, bucket, r.pc.cur, n);
    }
  }

  lemma PendingRead(h: Heap, bucket: Bucketing, r: Reader, n: nat)
    requires HeapOk(h, bucket) && Proper(bucket) && ReaderOk(h, bucket, r) && IsLinked(h, n)
    requires Pending(h, bucket, r, n)
    ensures Pending(h, bucket, ReadStep(h, r), n)
  {
    if r.pc.AtNode? && r.pc.slot == bucket(h.nodes[n].key).slot && r.pc.cur > n {
      assert bucket(h.nodes[n].key) == Bucket(r.goal.table, r.pc.slot);
      assert SameBucket(h, bucket, r.pc.cur, n);
    }
  }

  // What happens between two states of a run, as an open section sees it.
  ghost predicate SectionStep(h: Heap, bucket: Bucketing, r: Reader, h': Heap, r': Reader)
  {
    && HeapOk(h, bucket) && Proper(bucket) && ReaderOk(h, bucket, r) && Grown(h, h')
    && (r' == r || (r.Inside? && !r.pc.Ended? && r' == ReadStep(h, r) && h' == h))
  }

  lemma AheadStep(h: Heap, bucket: Bucketing, r: Reader, h': Heap, r': Reader, n: nat)
    requires SectionStep(h, bucket, r, h', r') && IsLinked(h, n) && Ahead(h, bucket, r, n)
    ensures Ahead(h', bucket, r', n)
  {
    if r' != r {
      AheadRead(h, bucket, r, n);
    }
  }

  lemma PendingStep(h: Heap, bucket: Bucketing, r: Reader, h': Heap, r': Reader, n: nat)
    requires SectionStep(h, bucket, r, h', r') && IsLinked(h, n) && Pending(h, bucket, r, n)
    ensures Pending(h', bucket, r', n)
  {
    if r' != r {
      PendingRead(h, bucket, r, n);
    }
  }

  // ---------------------------------------------------------------- nothing is missed

  // Node n is linked from the first state of the section on.
  predicate LinkedThroughout(ss: seq<State>, a: nat, b: nat, n: nat)
  {
    a <= b < |ss| && forall x :: a <= x <= b ==> IsLinked(ss[x].heap, n)
  }

  lemma {:induction false} LookupKeeps(ss: seq<State>, ks: seq<Step>, bucket: Bucketing, r: nat, key: Key,
                                       a: nat, b: nat, n: nat)
    requires IsSection(ss, ks, bucket, r, Find(key), a, b) && LinkedThroughout(ss, a, b, n)
    requires ss[b].heap.nodes[n].key == key
    ensures Ahead(ss[b].heap, bucket, ss[b].readers[r], n)
    decreases b
  {
    if b > a {
      StepHeap(ss, ks, bucket, b - 1);
      assert IsLinked(ss[b - 1].heap, n);
      LookupKeeps(ss, ks, bucket, r, key, a, b - 1, n);
      StepReader(ss, ks, bucket, b - 1, r);
      hide ReaderOk, HeapOk, ReadStep;
      AheadStep(ss[b - 1].heap, bucket, ss[b - 1].readers[r], ss[b].heap, ss[b].readers[r], n);
    }
  }

  lemma {:induction false} EnumerationKeeps(ss: seq<State>, ks: seq<Step>, bucket: Bucketing, r: nat, table: nat, cap: nat,
                                            a: nat, b: nat, n: nat)
    requires IsSection(ss, ks, bucket, r, All(table, cap), a, b) && LinkedThroughout(ss, a, b, n)
    requires bucket(ss[b].heap.nodes[n].key).table == table
    ensures Pending(ss[b].heap, bucket, ss[b].readers[r], n)
    decreases b
  {
    if b > a {
      StepHeap(ss, ks, bucket, b - 1);
      assert IsLinked(ss[b - 1].heap, n);
      EnumerationKeeps(ss, ks, bucket, r, table, cap, a, b - 1, n);
      StepReader(ss, ks, bucket, b - 1, r);
      hide ReaderOk, HeapOk, ReadStep;
      PendingStep(ss[b - 1].heap, bucket, ss[b - 1].readers[r], ss[b].heap, ss[b].readers[r], n);
    }
  }

  // A key whose node stays linked throughout the section is found, and at that node.
  lemma LookupFinds(ss: seq<State>, ks: seq<Step>, bucket: Bucketing, r: nat, key: Key, a: nat, b: nat, n: nat)
    requires IsSection(ss, ks, bucket, r, Find(key), a, b) && ss[b].readers[r].pc.Ended?
    requires LinkedThroughout(ss, a, b, n) && ss[b].heap.nodes[n].key == key
    ensures ss[b].readers[r].pc.hit == Some(n) && ss[b].readers[r].call == Some(ss[b].heap.nodes[n].orig)
  {
    LookupKeeps(ss, ks, bucket, r, key, a, b, n);
    CallIsHit(ss, ks, bucket, r, key, a, b);
  }

  // The copied pointer is the entry of the node that was hit.
  lemma {:induction false} CallIsHit(ss: seq<State>, ks: seq<Step>, bucket: Bucketing, r: nat, key: Key, a: nat, b: nat)
    requires IsSection(ss, ks, bucket, r, Find(key), a, b)
    ensures var rd := ss[b].readers[r];
            rd.pc.Ended? && rd.pc.hit.Some? ==>
              rd.pc.hit.value < |ss[b].heap.nodes| && rd.call == Some(ss[b].heap.nodes[rd.pc.hit.value].orig)
    decreases b
  {
    if b > a {
      CallIsHit(ss, ks, bucket, r, key, a, b - 1);
      SectionInv(ss, ks, bucket, r, Find(key), a, b);
      StepHeap(ss, ks, bucket, b - 1);
      StepReader(ss, ks, bucket, b - 1, r);
    }
  }

  // A node of the table that stays linked throughout is copied, unless the buffer is full.
  lemma EnumerationFinds(ss: seq<State>, ks: seq<Step>, bucket: Bucketing, r: nat, table: nat, cap: nat,
                         a: nat, b: nat, n: nat)
    requires IsSection(ss, ks, bucket, r, All(table, cap), a, b) && ss[b].readers[r].pc.Ended?
    requires LinkedThroughout(ss, a, b, n) && bucket(ss[b].heap.nodes[n].key).table == table
    ensures n in ss[b].readers[r].pc.seen || |ss[b].readers[r].pc.seen| == cap
  {
    EnumerationKeeps(ss, ks, bucket, r, table, cap, a, b, n);
    SectionFacts(ss, ks, bucket, r, All(table, cap), a, b);
  }

  // ---------------------------------------------------------------- nothing is invented

  // A node was linked in some state from lo to b, with the key it has in b.
  predicate WasLinked(ss: seq<State>, lo: nat, b: nat, x: nat)
  {
    lo <= b < |ss| && x < |ss[b].heap.nodes| &&
    exists y :: lo <= y <= b && IsLinked(ss[y].heap, x) && ss[y].heap.nodes[x].key == ss[b].heap.nodes[x].key
  }

  lemma {:induction false} GoneStays(ss: seq<State>, ks: seq<Step>, bucket: Bucketing, lo: nat, b: nat, x: nat)
    requires IsRun(ss, ks, bucket) && lo <= b < |ss|
    requires x < |ss[lo].heap.nodes| && ss[lo].heap.nodes[x].life.Gone?
    ensures x < |ss[b].heap.nodes| && ss[b].heap.nodes[x].life == ss[lo].heap.nodes[x].life
    decreases b
  {
    if b > lo {
      GoneStays(ss, ks, bucket, lo, b - 1, x);
      StepHeap(ss, ks, bucket, b - 1);
    }
  }

  // A node known in b that was not already gone in lo was linked somewhere in between.
  lemma {:induction false} LinkedSomewhere(ss: seq<State>, ks: seq<Step>, bucket: Bucketing, lo: nat, b: nat, x: nat)
    requires IsRun(ss, ks, bucket) && lo <= b < |ss| && x < |ss[b].heap.nodes|
    requires x < |ss[lo].heap.nodes| ==> ss[lo].heap.nodes[x].life == Linked
    ensures WasLinked(ss, lo, b, x)
    decreases b
  {
    if ss[b].heap.nodes[x].life == Linked {
      assert IsLinked(ss[b].heap, x);
    } else {
      StepHeap(ss, ks, bucket, b - 1);
      LinkedSomewhere(ss, ks, bucket, lo, b - 1, x);
      var y :| lo <= y <= b - 1 && IsLinked(ss[y].heap, x)
               && ss[y].heap.nodes[x].key == ss[b - 1].heap.nodes[x].key;
      assert lo <= y <= b && IsLinked(ss[y].heap, x) && ss[y].heap.nodes[x].key == ss[b].heap.nodes[x].key;
    }
  }

  lemma VisibleWasLinked(ss: seq<State>, ks: seq<Step>, bucket: Bucketing, r: nat, goal: Goal, a: nat, b: nat, x: nat)
    requires IsSection(ss, ks, bucket, r, goal, a, b)
    requires Visible(ss[b].heap, x, ss[b].readers[r].since)
    ensures WasLinked(ss, a, b, x)
  {
    SectionFacts(ss, ks, bucket, r, goal, a, b);
    SectionInv(ss, ks, bucket, r, goal, a, a);
    if x < |ss[a].heap.nodes| && ss[a].heap.nodes[x].life.Gone? {
      GoneStays(ss, ks, bucket, a, b, x);
    } else {
      LinkedSomewhere(ss, ks, bucket, a, b, x);
    }
  }

  // ---------------------------------------------------------------- a lookup is linearizable

  // While the key is never absent, one and the same node carries it.
  lemma {:induction false} OneNodeThroughout(ss: seq<State>, ks: seq<Step>, bucket: Bucketing, a: nat, b: nat, n: nat, key: Key)
    requires IsRun(ss, ks, bucket) && a <= b < |ss|
    requires IsLinked(ss[a].heap, n) && ss[a].heap.nodes[n].key == key
    requires forall x :: a <= x <= b ==> !Absent(ss[x].heap, key)
    ensures LinkedThroughout(ss, a, b, n) && ss[b].heap.nodes[n].key == key
    decreases b
  {
    if b > a {
      OneNodeThroughout(ss, ks, bucket, a, b - 1, n, key);
      StepHeap(ss, ks, bucket, b - 1);
      if !IsLinked(ss[b].heap, n) {
        StepAbsent(ss, ks, bucket, b - 1, n);
      }
    }
  }

  // A hit was linked, and a miss absent, at some moment of the section.
  lemma LookupLinearizable(ss: seq<State>, ks: seq<Step>, bucket: Bucketing, r: nat, key: Key, a: nat, b: nat)
    requires IsSection(ss, ks, bucket, r, Find(key), a, b) && ss[b].readers[r].pc.Ended?
    ensures var hit := ss[b].readers[r].pc.hit;
            && (hit.Some? ==> WasLinked(ss, a, b, hit.value) && ss[b].heap.nodes[hit.value].key == key)
            && (hit.None? ==> exists y :: a <= y <= b && Absent(ss[y].heap, key))
  {
    SectionFacts(ss, ks, bucket, r, Find(key), a, b);
    SectionInv(ss, ks, bucket, r, Find(key), a, b);
    var hit := ss[b].readers[r].pc.hit;
    if hit.Some? {
      VisibleWasLinked(ss, ks, bucket, r, Find(key), a, b, hit.value);
    } else if forall y :: a <= y <= b ==> !Absent(ss[y].heap, key) {
      var n :| 0 <= n < |ss[a].heap.nodes| && ss[a].heap.nodes[n].key == key
               && ss[a].heap.nodes[n].life == Linked;
      OneNodeThroughout(ss, ks, bucket, a, b, n, key);
      LookupFinds(ss, ks, bucket, r, key, a, b, n);
    }
  }

  // The wrapper's pointer for a syscall number: at some moment of the lookup it is NULL exactly
  // if the number has no node then; otherwise it is the pristine entry.
  lemma WrapperPointer(ss: seq<State>, ks: seq<Step>, bucket: Bucketing, r: nat, nr: nat, a: nat, b: nat)
    requires IsSection(ss, ks, bucket, r, Find(Sys(nr)), a, b) && ss[b].readers[r].pc.Ended?
    ensures var call := ss[b].readers[r].call;
            && (exists y :: a <= y <= b && (call == None <==> Absent(ss[y].heap, Sys(nr))))
            && (call.Some? ==> nr < |ss[0].pristine| && call.value == ss[0].pristine[nr] && call.value != Wrapper)
  {
    CallIsHit(ss, ks, bucket, r, Sys(nr), a, b);
    LookupLinearizable(ss, ks, bucket, r, Sys(nr), a, b);
    SectionFacts(ss, ks, bucket, r, Find(Sys(nr)), a, b);
    SectionInv(ss, ks, bucket, r, Find(Sys(nr)), a, b);
    if ss[b].readers[r].call.Some? {
      WrapperNeverCallsItself(ss, ks, bucket, b, r, nr);
    }
  }

  // One enumeration never lists a key twice, even if it is removed and added again
  // meanwhile, and lists only keys that were registered at some moment of it.
  lemma EnumerationSound(ss: seq<State>, ks: seq<Step>, bucket: Bucketing, r: nat, table: nat, cap: nat, a: nat, b: nat)
    requires IsSection(ss, ks, bucket, r, All(table, cap), a, b)
    ensures var seen := ss[b].readers[r].pc.seen;
            && |seen| <= cap && SeenDistinct(ss[b].heap, seen)
            && (forall x :: x in seen ==> WasLinked(ss, a, b, x) && bucket(ss[b].heap.nodes[x].key).table == table)
  {
    SectionFacts(ss, ks, bucket, r, All(table, cap), a, b);
    SectionInv(ss, ks, bucket, r, All(table, cap), a, b);
    forall x | x in ss[b].readers[r].pc.seen
      ensures WasLinked(ss, a, b, x) && bucket(ss[b].heap.nodes[x].key).table == table
    {
      VisibleWasLinked(ss, ks, bucket, r, All(table, cap), a, b, x);
    }
  }
}
