// Invariants of every run of the registries: the lists and the lock, the syscall table, the
// counters, and reclamation.
module RcuSafety {
  import opened Wrappers
  import opened Errno
  import opened Sums
  import opened RcuHeap
  import opened Rcu

  // ---------------------------------------------------------------- the lock

  predicate LockOk(s: State)
  {
    forall w :: 0 <= w < |s.writers| ==> (InLock(s.writers[w]) <==> s.lock == Some(w))
  }

  // The writer in the critical section, if any.
  function Holder(s: State): Writer
  {
    if s.lock.Some? && s.lock.value < |s.writers| then s.writers[s.lock.value] else Rest(OK)
  }

  lemma LockStep(s: State, bucket: Bucketing, k: Step)
    requires Shape(s, bucket) && LockOk(s) && Enabled(s, k)
    ensures LockOk(Apply(s, bucket, k))
  {
  }

  // Writers outside the critical section change nothing but their own state and freed memory.
  lemma OutsideLock(s: State, bucket: Bucketing, i: nat)
    requires Shape(s, bucket) && LockOk(s) && Enabled(s, Write(i)) && !InLock(s.writers[i])
    ensures var s' := WriteStep(s, bucket, i);
            && s'.table == s.table && s'.flags == s.flags
            && s'.sysLen == s.sysLen && s'.uidLen == s.uidLen && s'.progLen == s.progLen
            && |s'.heap.nodes| == |s.heap.nodes|
            && (forall n :: 0 <= n < |s.heap.nodes| ==>
                  s'.heap.nodes[n] == s.heap.nodes[n].(statsFreed := s'.heap.nodes[n].statsFreed, freed := s'.heap.nodes[n].freed))
  {
  }

  // While a writer is in the critical section, nobody else's step changes a list.
  lemma OthersKeepLists(s: State, bucket: Bucketing, k: Step)
    requires Shape(s, bucket) && LockOk(s) && Enabled(s, k)
    requires s.lock.Some? && k != Write(s.lock.value)
    ensures var h, h' := s.heap, Apply(s, bucket, k).heap;
            && h'.heads == h.heads && |h'.nodes| == |h.nodes|
            && (forall n :: 0 <= n < |h.nodes| ==>
                  && h'.nodes[n].next == h.nodes[n].next && h'.nodes[n].pprev == h.nodes[n].pprev
                  && h'.nodes[n].key == h.nodes[n].key && h'.nodes[n].life == h.nodes[n].life)
  {
    hide HeapOk;
    if k.Write? {
      OutsideLock(s, bucket, k.w);
    }
  }

  // ---------------------------------------------------------------- writers in the section

  predicate HolderOk(s: State, w: Writer)
    requires |s.pristine| == |s.flags| && WriterFits(s, w)
  {
    match w
    case Save(nr) => !s.flags[nr]
    case Patch(nr, orig) => !s.flags[nr] && orig == s.pristine[nr]
    case Flag(nr, orig) => !s.flags[nr] && orig == s.pristine[nr]
    case Publish(k, orig) =>
      Absent(s.heap, k) && InRange(s, k) && (k.Sys? ==> s.flags[k.nr] && orig == s.pristine[k.nr])
    case CountUp(k) => InRange(s, k) && (k.Sys? ==> s.flags[k.nr])
    case Seek(nr) => s.flags[nr]
    case Restore(nr, n) => s.flags[nr] && IsLinked(s.heap, n) && s.heap.nodes[n].key == Sys(nr)
    case Unflag(nr, n) => s.flags[nr] && IsLinked(s.heap, n) && s.heap.nodes[n].key == Sys(nr)
    case Remove(k, n) =>
      IsLinked(s.heap, n) && s.heap.nodes[n].key == k && InRange(s, k) && (k.Sys? ==> !s.flags[k.nr])
    case CountDown(k, _) => InRange(s, k) && (k.Sys? ==> !s.flags[k.nr])
    case _ => true
  }

  // Between :68 and :71 the entry is patched and not yet flagged; between :117 and :122
  // it is restored and still flagged.
  function Patched(h: Writer, nr: nat, flag: bool): bool
  {
    if h.Flag? && h.nr == nr then true
    else if h.Unflag? && h.nr == nr then false
    else flag
  }

  // Between :71 and :76 the node is not yet linked; between :122 and :125 it still is.
  function Present(h: Writer, nr: nat, flag: bool): bool
  {
    if h.Publish? && h.key == Sys(nr) then false
    else if h.Remove? && h.key == Sys(nr) then true
    else flag
  }

  predicate Coupled(s: State)
    requires |s.table| == |s.flags| == |s.pristine|
  {
    forall nr :: 0 <= nr < |s.flags| ==>
      && s.table[nr] == (if Patched(Holder(s), nr, s.flags[nr]) then Wrapper else s.pristine[nr])
      && (Present(Holder(s), nr, s.flags[nr]) <==> !Absent(s.heap, Sys(nr)))
  }

  // Every node ever linked for a syscall stores that syscall's pristine entry.
  predicate OrigOk(s: State)
  {
    forall n :: 0 <= n < |s.heap.nodes| && s.heap.nodes[n].key.Sys? ==>
      s.heap.nodes[n].key.nr < |s.pristine| && s.heap.nodes[n].orig == s.pristine[s.heap.nodes[n].key.nr]
  }

  predicate TableOk(s: State, bucket: Bucketing)
  {
    && Shape(s, bucket) && LockOk(s)
    && (forall w :: 0 <= w < |s.writers| ==> HolderOk(s, s.writers[w]))
    && Coupled(s) && OrigOk(s)
    && (forall nr :: 0 <= nr < |s.pristine| ==> s.pristine[nr].Original?)
  }

  // ---------------------------------------------------------------- search

  // From a node of the bucket, the search finds the linked node with the key if there is
  // one that is not newer; from the head it therefore decides membership.
  lemma {:induction false} SearchDecides(h: Heap, bucket: Bucketing, from: Option<nat>, k: Key)
    requires HeapOk(h, bucket)
    requires from.Some? ==> IsLinked(h, from.value) && bucket(h.nodes[from.value].key) == bucket(k)
    ensures var n := Search(h, bucket, from, k);
            && (n.Some? ==> IsLinked(h, n.value) && h.nodes[n.value].key == k)
            && (n.None? ==> forall m :: 0 <= m < |h.nodes| && h.nodes[m].key == k && h.nodes[m].life == Linked ==>
                              from.None? || m > from.value)
    decreases if from.Some? then from.value + 1 else 0
  {
    if from.Some? && h.nodes[from.value].key != k {
      assert LinkOk(h, bucket, from.value);
      SearchDecides(h, bucket, h.nodes[from.value].next, k);
      forall m | 0 <= m <= from.value && h.nodes[m].key == k && h.nodes[m].life == Linked
        ensures Search(h, bucket, from, k).Some?
      {
        assert m < from.value && SameBucket(h, bucket, from.value, m);
      }
    }
  }

  lemma FoundDecides(s: State, bucket: Bucketing, k: Key)
    requires Shape(s, bucket)
    ensures var n := Found(s, bucket, k);
            if n.Some? then IsLinked(s.heap, n.value) && s.heap.nodes[n.value].key == k
            else Absent(s.heap, k)
  {
    SearchDecides(s.heap, bucket, Head(s.heap, bucket(k)), k);
  }

  // ---------------------------------------------------------------- one step on the lists

  predicate OnlyFreed(h: Heap, h': Heap)
  {
    && |h'.nodes| == |h.nodes| && h'.heads == h.heads && h'.clock == h.clock
    && (forall n :: 0 <= n < |h.nodes| ==>
          h'.nodes[n] == h.nodes[n].(statsFreed := h'.nodes[n].statsFreed, freed := h'.nodes[n].freed))
  }

  lemma FreedKeepsOk(h: Heap, bucket: Bucketing, h': Heap)
    requires HeapOk(h, bucket) && OnlyFreed(h, h')
    ensures HeapOk(h', bucket)
  {
    forall i | 0 <= i < |h'.nodes|
      ensures LinkOk(h', bucket, i) && PprevOk(h', bucket, i)
    {
      assert LinkOk(h, bucket, i) && PprevOk(h, bucket, i);
    }
    assert NoSkips(h', bucket) by {
      forall i, m | 0 <= m < i < |h'.nodes| && h'.nodes[m].life == Linked && SameBucket(h', bucket, i, m)
        ensures h'.nodes[i].next.Some? && h'.nodes[i].next.value >= m
      {
        assert SameBucket(h, bucket, i, m);
      }
    }
  }

  lemma HeapStep(s: State, bucket: Bucketing, w: Writer)
    requires Shape(s, bucket) && WriterFits(s, w)
    requires |s.pristine| == |s.flags| && HolderOk(s, w)
    ensures HeapOk(NextHeap(s, bucket, w), bucket)
    ensures !w.Publish? && !w.Remove? ==> OnlyFreed(s.heap, NextHeap(s, bucket, w))
  {
    if w.Publish? {
      LinkKeepsOk(s.heap, bucket, w.key, w.orig);
    } else if w.Remove? {
      UnlinkKeepsOk(s.heap, bucket, w.node);
    } else {
      FreedKeepsOk(s.heap, bucket, NextHeap(s, bucket, w));
    }
  }

  // Nodes keep their key and entry; only the step's own node changes its life.
  lemma NodesStep(s: State, bucket: Bucketing, w: Writer)
    requires Shape(s, bucket) && WriterFits(s, w)
    requires |s.pristine| == |s.flags| && HolderOk(s, w)
    ensures var h' := NextHeap(s, bucket, w);
            && |h'.nodes| == |s.heap.nodes| + (if w.Publish? then 1 else 0)
            && (forall n :: 0 <= n < |s.heap.nodes| ==>
                  && h'.nodes[n].key == s.heap.nodes[n].key && h'.nodes[n].orig == s.heap.nodes[n].orig
                  && h'.nodes[n].born == s.heap.nodes[n].born
                  && h'.nodes[n].life == if w.Remove? && w.node == n then Gone(s.heap.clock) else s.heap.nodes[n].life)
            && (w.Publish? ==>
                  var x := h'.nodes[|s.heap.nodes|];
                  x.key == w.key && x.orig == w.orig && x.life == Linked && x.born == s.heap.clock
                  && !x.statsFreed && !x.freed)
            && s.heap.clock <= h'.clock
  {
    if w.Publish? {
      LinkFields(s.heap, bucket, w.key, w.orig);
    } else if w.Remove? {
      assert LinkOk(s.heap, bucket, w.node) && PprevOk(s.heap, bucket, w.node);
      UnlinkFields(s.heap, bucket, w.node);
    }
  }

  lemma AbsentStep(s: State, bucket: Bucketing, w: Writer, k: Key)
    requires Shape(s, bucket) && WriterFits(s, w)
    requires |s.pristine| == |s.flags| && HolderOk(s, w)
    ensures Absent(NextHeap(s, bucket, w), k)
        <==> if w.Publish? then Absent(s.heap, k) && k != w.key
             else if w.Remove? then Absent(s.heap, k) || k == w.key
             else Absent(s.heap, k)
  {
    NodesStep(s, bucket, w);
    var h, h' := s.heap, NextHeap(s, bucket, w);
    assert forall n :: 0 <= n < |h.nodes| ==> h'.nodes[n].key == h.nodes[n].key;
    if w.Publish? {
      assert h'.nodes[|h.nodes|].key == w.key && h'.nodes[|h.nodes|].life == Linked;
      if Absent(h', k) {
        assert forall n :: 0 <= n < |h.nodes| && h.nodes[n].key == k ==> h'.nodes[n].life.Gone?;
      }
    } else if w.Remove? {
      if Absent(h', k) && k != w.key {
        assert forall n :: 0 <= n < |h.nodes| && h.nodes[n].key == k ==> h'.nodes[n].life.Gone? && n != w.node;
      }
    } else {
      assert forall n :: 0 <= n < |h.nodes| ==> h'.nodes[n].life == h.nodes[n].life;
      if Absent(h', k) {
        assert forall n :: 0 <= n < |h.nodes| && h.nodes[n].key == k ==> h'.nodes[n].life.Gone?;
      }
    }
  }

  // ---------------------------------------------------------------- the table, step by step

  // A test or a search under the lock sends the writer where its outcome is justified.
  lemma CheckMove(s: State, bucket: Bucketing, op: Op)
    requires TableOk(s, bucket) && InRange(s, op.key)
    requires Holder(s).Check?
    ensures WriterFits(s, CheckStep(s, bucket, op)) && HolderOk(s, CheckStep(s, bucket, op))
  {
    FoundDecides(s, bucket, op.key);
  }

  // A flagged number has its node: the -EFAULT branch is dead.
  lemma SeekMove(s: State, bucket: Bucketing, nr: nat)
    requires TableOk(s, bucket) && nr < |s.flags| && s.flags[nr]
    requires Holder(s) == Seek(nr)
    ensures Found(s, bucket, Sys(nr)).Some?
    ensures NextWriter(s, bucket, Seek(nr)).Restore?
    ensures WriterFits(s, NextWriter(s, bucket, Seek(nr))) && HolderOk(s, NextWriter(s, bucket, Seek(nr)))
  {
    FoundDecides(s, bucket, Sys(nr));
  }

  // The writer's own next state is justified by what it has just done.
  lemma HolderMove(s: State, bucket: Bucketing, i: nat)
    requires TableOk(s, bucket) && Enabled(s, Write(i)) && InLock(s.writers[i])
    ensures var s' := WriteStep(s, bucket, i);
            && |s'.flags| == |s.flags| == |s'.table|
            && WriterFits(s', s'.writers[i]) && HolderOk(s', s'.writers[i])
  {
    var w := s.writers[i];
    assert HolderOk(s, w) && WriterFits(s, w);
    assert Holder(s) == w;
    if w.Check? {
      CheckMove(s, bucket, w.op);
    } else if w.Seek? {
      SeekMove(s, bucket, w.nr);
    } else {
      HolderMoveOn(s, bucket, i);
    }
  }

  lemma HolderMoveOn(s: State, bucket: Bucketing, i: nat)
    requires TableOk(s, bucket) && Enabled(s, Write(i)) && InLock(s.writers[i])
    requires Holder(s) == s.writers[i] && !s.writers[i].Check? && !s.writers[i].Seek?
    requires HolderOk(s, s.writers[i])
    ensures var s' := WriteStep(s, bucket, i);
            && |s'.flags| == |s.flags| == |s'.table|
            && WriterFits(s', s'.writers[i]) && HolderOk(s', s'.writers[i])
  {
    hide HeapOk, OrigOk, LockOk, Search;
    var w := s.writers[i];
    NodesStep(s, bucket, w);
    if w.Flag? {
      assert !Present(w, w.nr, s.flags[w.nr]);
    }
  }

  lemma CoupledMove(s: State, bucket: Bucketing, i: nat)
    requires TableOk(s, bucket) && Enabled(s, Write(i)) && InLock(s.writers[i])
    ensures var s' := WriteStep(s, bucket, i);
            |s'.table| == |s'.flags| == |s'.pristine| && Coupled(s')
  {
    hide HeapOk, Search;
    var w, s' := s.writers[i], WriteStep(s, bucket, i);
    assert HolderOk(s, w) && WriterFits(s, w);
    assert Holder(s) == w;
    HolderMove(s, bucket, i);
    var w' := s'.writers[i];
    assert Holder(s') == if w.Unlock? then Rest(OK) else w';
    forall nr | 0 <= nr < |s'.flags|
      ensures s'.table[nr] == (if Patched(Holder(s'), nr, s'.flags[nr]) then Wrapper else s'.pristine[nr])
      ensures Present(Holder(s'), nr, s'.flags[nr]) <==> !Absent(s'.heap, Sys(nr))
    {
      AbsentStep(s, bucket, w, Sys(nr));
      assert Patched(w, nr, s.flags[nr]) ==> s.table[nr] == Wrapper;
    }
  }

  lemma OrigMove(s: State, bucket: Bucketing, i: nat)
    requires TableOk(s, bucket) && Enabled(s, Write(i))
    ensures OrigOk(WriteStep(s, bucket, i))
  {
    assert HolderOk(s, s.writers[i]);
    NodesStep(s, bucket, s.writers[i]);
  }

  lemma HolderStays(s: State, bucket: Bucketing, k: Step)
    requires Shape(s, bucket) && LockOk(s) && Enabled(s, k)
    requires k.Write? ==> !InLock(s.writers[k.w]) && !s.writers[k.w].Lock?
    ensures Holder(Apply(s, bucket, k)) == Holder(s)
  {
  }

  lemma FitsGrow(s: State, s': State, w: Writer)
    requires WriterFits(s, w) && |s'.flags| == |s.flags| && |s'.heap.nodes| >= |s.heap.nodes|
    ensures WriterFits(s', w)
  {
  }

  lemma SizesStep(s: State, bucket: Bucketing, k: Step)
    requires TableOk(s, bucket) && Enabled(s, k)
    ensures var s' := Apply(s, bucket, k);
            && HeapOk(s'.heap, bucket)
            && |s'.table| == |s'.flags| == |s'.pristine| && s'.pristine == s.pristine
            && |s'.heap.nodes| >= |s.heap.nodes|
  {
    if k.Write? {
      var w := s.writers[k.w];
      assert HolderOk(s, w);
      HeapStep(s, bucket, w);
      NodesStep(s, bucket, w);
    }
  }

  // Which writers a step can change.
  lemma WritersFrame(s: State, bucket: Bucketing, k: Step)
    requires Shape(s, bucket) && Enabled(s, k)
    ensures var s' := Apply(s, bucket, k);
            && |s'.writers| == |s.writers|
            && (forall v :: 0 <= v < |s.writers| ==>
                  s'.writers[v] ==
                    if k.Begin? && k.w == v then Lock(k.op)
                    else if k.Write? && k.w == v then NextWriter(s, bucket, s.writers[v])
                    else if k.Close? && s.writers[v].Grace? then
                      s.writers[v].(waiting := s.writers[v].waiting - {k.r})
                    else s.writers[v])
  {
  }

  lemma FitsStep(s: State, bucket: Bucketing, k: Step, w: nat)
    requires TableOk(s, bucket) && Enabled(s, k) && w < |s.writers|
    ensures var s' := Apply(s, bucket, k);
            |s'.writers| == |s.writers| && WriterFits(s', s'.writers[w])
  {
    hide HeapOk, OrigOk, Coupled, Search;
    SizesStep(s, bucket, k);
    WritersFrame(s, bucket, k);
    FitsGrow(s, Apply(s, bucket, k), s.writers[w]);
    if k.Write? && k.w == w && InLock(s.writers[w]) {
      HolderMove(s, bucket, w);
      hide *;
    } else {
      hide HolderOk;
    }
  }

  lemma ShapeStep(s: State, bucket: Bucketing, k: Step)
    requires TableOk(s, bucket) && Enabled(s, k)
    ensures var s' := Apply(s, bucket, k);
            && HeapOk(s'.heap, bucket)
            && |s'.table| == |s'.flags| == |s'.pristine| && s'.pristine == s.pristine
            && |s'.heap.nodes| >= |s.heap.nodes|
            && (forall w :: 0 <= w < |s'.writers| ==> WriterFits(s', s'.writers[w]))
  {
    SizesStep(s, bucket, k);
    WritersFrame(s, bucket, k);
    hide Apply, TableOk, HeapOk, WriterFits, NextWriter;
    forall w | 0 <= w < |s.writers|
      ensures WriterFits(Apply(s, bucket, k), Apply(s, bucket, k).writers[w])
    {
      FitsStep(s, bucket, k, w);
    }
  }

  lemma CursorStep(h: Heap, bucket: Bucketing, r: Reader)
    requires HeapOk(h, bucket) && r.Inside? && CursorFits(h, r.pc)
    ensures CursorFits(h, ReadStep(h, r).pc)
  {
    if r.pc.AtNode? {
      assert LinkOk(h, bucket, r.pc.cur);
    }
  }

  lemma HolderStep(s: State, bucket: Bucketing, k: Step, w: nat)
    requires TableOk(s, bucket) && Enabled(s, k) && w < |s.writers|
    ensures var s' := Apply(s, bucket, k);
            |s'.writers| == |s.writers| && |s'.pristine| == |s'.flags| && WriterFits(s', s'.writers[w]) && HolderOk(s', s'.writers[w])
  {
    hide HeapOk, Coupled;
    ShapeStep(s, bucket, k);
    WritersFrame(s, bucket, k);
    assert HolderOk(s, s.writers[w]);
    if k.Write? && InLock(s.writers[k.w]) {
      HolderMove(s, bucket, k.w);
    } else if k.Write? {
      OutsideLock(s, bucket, k.w);
    }
  }

  lemma HoldersStep(s: State, bucket: Bucketing, k: Step)
    requires TableOk(s, bucket) && Enabled(s, k)
    ensures var s' := Apply(s, bucket, k);
            && |s'.pristine| == |s'.flags|
            && forall w :: 0 <= w < |s'.writers| ==> WriterFits(s', s'.writers[w]) && HolderOk(s', s'.writers[w])
  {
    ShapeStep(s, bucket, k);
    WritersFrame(s, bucket, k);
    hide HolderOk, WriterFits;
    forall w | 0 <= w < |s.writers|
      ensures HolderOk(Apply(s, bucket, k), Apply(s, bucket, k).writers[w])
    {
      HolderStep(s, bucket, k, w);
    }
  }

  lemma CoupledStep(s: State, bucket: Bucketing, k: Step)
    requires TableOk(s, bucket) && Enabled(s, k)
    ensures var s' := Apply(s, bucket, k);
            |s'.table| == |s'.flags| == |s'.pristine| && Coupled(s')
  {
    ShapeStep(s, bucket, k);
    var s' := Apply(s, bucket, k);
    if k.Write? && InLock(s.writers[k.w]) {
      CoupledMove(s, bucket, k.w);
    } else {
      if k.Write? {
        OutsideLock(s, bucket, k.w);
        assert HolderOk(s, s.writers[k.w]);
      }
      if k.Write? && s.writers[k.w].Lock? {
        assert Holder(s) == Rest(OK) && Holder(s').Check?;
      } else {
        HolderStays(s, bucket, k);
      }
      forall nr | 0 <= nr < |s.flags|
        ensures Absent(s'.heap, Sys(nr)) <==> Absent(s.heap, Sys(nr))
      {
        if k.Write? {
          AbsentStep(s, bucket, s.writers[k.w], Sys(nr));
        }
      }
    }
  }

  lemma TableStep(s: State, bucket: Bucketing, k: Step)
    requires TableOk(s, bucket) && Enabled(s, k)
    ensures TableOk(Apply(s, bucket, k), bucket)
  {
    ShapeStep(s, bucket, k);
    LockStep(s, bucket, k);
    HoldersStep(s, bucket, k);
    CoupledStep(s, bucket, k);
    var s' := Apply(s, bucket, k);
    if k.Write? {
      OrigMove(s, bucket, k.w);
    }
    forall w | 0 <= w < |s'.writers| && s'.writers[w].Remove?
      ensures IsLinked(s'.heap, s'.writers[w].node)
    {
      assert HolderOk(s', s'.writers[w]);
    }
    forall r | 0 <= r < |s'.readers| && s'.readers[r].Inside?
      ensures CursorFits(s'.heap, s'.readers[r].pc)
    {
      if k.Read? && k.r == r {
        CursorStep(s.heap, bucket, s.readers[r]);
      }
    }
  }

  // ---------------------------------------------------------------- counters

  function LinkedIn0(n: Node): int { if n.life == Linked && TableOf(n.key) == 0 then 1 else 0 }

  function LinkedIn1(n: Node): int { if n.life == Linked && TableOf(n.key) == 1 then 1 else 0 }

  function LinkedIn2(n: Node): int { if n.life == Linked && TableOf(n.key) == 2 then 1 else 0 }

  function Bit(flag: bool): int { if flag then 1 else 0 }

  // Links not yet counted, by the writer in the critical section.
  function Uncounted(w: Writer, t: nat): int
  {
    LenChange(w, t)
  }

  function UncountedFlags(w: Writer): int
  {
    if (w.Publish? || w.CountUp?) && w.key.Sys? then 1
    else if (w.Remove? || w.CountDown?) && w.key.Sys? then -1
    else 0
  }

  predicate CountersOk(s: State)
  {
    && s.sysLen + Uncounted(Holder(s), 0) == Sum(LinkedIn0, s.heap.nodes)
    && s.uidLen + Uncounted(Holder(s), 1) == Sum(LinkedIn1, s.heap.nodes)
    && s.progLen + Uncounted(Holder(s), 2) == Sum(LinkedIn2, s.heap.nodes)
    && s.sysLen + UncountedFlags(Holder(s)) == Sum(Bit, s.flags)
  }

  // What a step on the lists does to the number of linked nodes of table t.
  function LinkChange(w: Writer, t: nat): int
  {
    if w.Publish? && TableOf(w.key) == t then 1
    else if w.Remove? && TableOf(w.key) == t then -1
    else 0
  }

  lemma SumAfter(f: Node -> int, t: nat, nodes: seq<Node>, nodes': seq<Node>, w: Writer)
    requires |nodes'| == |nodes| + (if w.Publish? then 1 else 0)
    requires forall n :: 0 <= n < |nodes| && !(w.Remove? && w.node == n) ==> f(nodes'[n]) == f(nodes[n])
    requires w.Publish? ==> f(nodes'[|nodes|]) == LinkChange(w, t)
    requires w.Remove? ==> w.node < |nodes| && f(nodes'[w.node]) == f(nodes[w.node]) + LinkChange(w, t)
    ensures Sum(f, nodes') == Sum(f, nodes) + LinkChange(w, t)
  {
    if w.Publish? {
      assert nodes' == nodes'[..|nodes|] + [nodes'[|nodes|]];
      SumSame(f, nodes'[..|nodes|], f, nodes);
      SumAppend(f, nodes'[..|nodes|], nodes'[|nodes|]);
    } else if w.Remove? {
      SumPoint(f, nodes, nodes', w.node);
    } else {
      SumSame(f, nodes', f, nodes);
    }
  }

  lemma NodeSum(f: Node -> int, t: nat, s: State, bucket: Bucketing, w: Writer)
    requires Shape(s, bucket) && WriterFits(s, w)
    requires |s.pristine| == |s.flags| && HolderOk(s, w)
    requires forall n :: f(n) == if n.life == Linked && TableOf(n.key) == t then 1 else 0
    ensures Sum(f, NextHeap(s, bucket, w).nodes) == Sum(f, s.heap.nodes) + LinkChange(w, t)
  {
    NodesStep(s, bucket, w);
    var nodes, nodes' := s.heap.nodes, NextHeap(s, bucket, w).nodes;
    assert w.Remove? ==> IsLinked(s.heap, w.node) && nodes[w.node].key == w.key;
    hide Shape, NextHeap, HolderOk, WriterFits, Sum;
    SumAfter(f, t, nodes, nodes', w);
  }

  lemma FlagSum(s: State, bucket: Bucketing, i: nat)
    requires TableOk(s, bucket) && Enabled(s, Write(i))
    ensures var w := s.writers[i];
            Sum(Bit, WriteStep(s, bucket, i).flags)
            == Sum(Bit, s.flags) + if w.Flag? then 1 else if w.Unflag? then -1 else 0
  {
    var w := s.writers[i];
    assert HolderOk(s, w) && WriterFits(s, w);
    if w.Flag? || w.Unflag? {
      SumUpdate(Bit, s.flags, w.nr, w.Flag?);
    }
  }

  function AfterStep(s: State, bucket: Bucketing, w: Writer): Writer
    requires Shape(s, bucket) && WriterFits(s, w)
  {
    if w.Unlock? then Rest(OK) else NextWriter(s, bucket, w)
  }

  // A counter lags behind the lists, and the flags ahead, only within the section.
  lemma CountMove(s: State, bucket: Bucketing, w: Writer, t: nat)
    requires Shape(s, bucket) && WriterFits(s, w) && InLock(w)
    ensures LenChange(w, t) + Uncounted(AfterStep(s, bucket, w), t) - Uncounted(w, t) == LinkChange(w, t)
    ensures LenChange(w, 0) + UncountedFlags(AfterStep(s, bucket, w)) - UncountedFlags(w)
         == if w.Flag? then 1 else if w.Unflag? then -1 else 0
  {
  }

  lemma CountersStep(s: State, bucket: Bucketing, k: Step)
    requires TableOk(s, bucket) && CountersOk(s) && Enabled(s, k)
    ensures CountersOk(Apply(s, bucket, k))
  {
    if k.Write? {
      CountersWrite(s, bucket, k.w);
    } else {
      HolderStays(s, bucket, k);
    }
  }

  lemma CountersWrite(s: State, bucket: Bucketing, i: nat)
    requires TableOk(s, bucket) && CountersOk(s) && Enabled(s, Write(i))
    ensures CountersOk(WriteStep(s, bucket, i))
  {
    hide HeapOk, Coupled, OrigOk, HolderOk, LenChange, LinkChange, Uncounted, UncountedFlags, Holder, NextHeap, NextWriter;
    var w := s.writers[i];
    assert HolderOk(s, w) && WriterFits(s, w);
    NodeSums(s, bucket, w);
    FlagSum(s, bucket, i);
    CountFlow(s, bucket, i, 0);
    CountFlow(s, bucket, i, 1);
    CountFlow(s, bucket, i, 2);
    hide TableOk, Shape, WriterFits, InLock;
  }

  lemma NodeSums(s: State, bucket: Bucketing, w: Writer)
    requires Shape(s, bucket) && WriterFits(s, w)
    requires |s.pristine| == |s.flags| && HolderOk(s, w)
    ensures Sum(LinkedIn0, NextHeap(s, bucket, w).nodes) == Sum(LinkedIn0, s.heap.nodes) + LinkChange(w, 0)
    ensures Sum(LinkedIn1, NextHeap(s, bucket, w).nodes) == Sum(LinkedIn1, s.heap.nodes) + LinkChange(w, 1)
    ensures Sum(LinkedIn2, NextHeap(s, bucket, w).nodes) == Sum(LinkedIn2, s.heap.nodes) + LinkChange(w, 2)
  {
    hide Shape, WriterFits, HolderOk, NextHeap, LinkChange;
    NodeSum(LinkedIn0, 0, s, bucket, w);
    NodeSum(LinkedIn1, 1, s, bucket, w);
    NodeSum(LinkedIn2, 2, s, bucket, w);
  }

  lemma CountFlow(s: State, bucket: Bucketing, i: nat, t: nat)
    requires TableOk(s, bucket) && Enabled(s, Write(i))
    ensures var w, h, h' := s.writers[i], Holder(s), Holder(WriteStep(s, bucket, i));
            && LenChange(w, t) + Uncounted(h', t) - Uncounted(h, t) == LinkChange(w, t)
            && LenChange(w, 0) + UncountedFlags(h') - UncountedFlags(h)
               == if w.Flag? then 1 else if w.Unflag? then -1 else 0
  {
    var w := s.writers[i];
    HolderNext(s, bucket, i);
    if InLock(w) {
      assert HolderOk(s, w) && WriterFits(s, w);
      CountMove(s, bucket, w, t);
    }
  }

  // Who holds the lock after a writer's step.
  lemma HolderNext(s: State, bucket: Bucketing, i: nat)
    requires TableOk(s, bucket) && Enabled(s, Write(i))
    ensures var w, h, h' := s.writers[i], Holder(s), Holder(WriteStep(s, bucket, i));
            && (InLock(w) ==> h == w && h' == AfterStep(s, bucket, w))
            && (w.Lock? ==> h == Rest(OK) && h'.Check?)
            && (!InLock(w) && !w.Lock? ==> h' == h)
  {
    if !InLock(s.writers[i]) && !s.writers[i].Lock? {
      HolderStays(s, bucket, Write(i));
    }
  }
}
