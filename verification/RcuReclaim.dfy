// What read sections can meet: the reader invariants and safe reclamation.
module RcuReclaim {
  import opened Wrappers
  import opened Errno
  import opened RcuHeap
  import opened Rcu
  import opened RcuSafety

  // ---------------------------------------------------------------- one read section

  // A node a section opened at clock reading t may still meet.
  predicate Visible(h: Heap, n: nat, t: nat)
  {
    n < |h.nodes| && (h.nodes[n].life.Gone? ==> h.nodes[n].life.at >= t)
  }

  // A copied node lies behind the cursor: in an earlier bucket, or newer in the same one.
  predicate BehindOk(h: Heap, bucket: Bucketing, table: nat, slot: nat, x: nat)
  {
    && x < |h.nodes| && bucket(h.nodes[x].key).table == table && bucket(h.nodes[x].key).slot <= slot
  }

  // The cursor node is in the bucket and may still be met; every node already copied from
  // this bucket is newer, and the cursor node outlived its linking.
  predicate CursorOk(h: Heap, bucket: Bucketing, r: Reader)
    requires r.Inside?
  {
    var table := GoalTable(r.goal);
    match r.pc
    case AtHead(slot, seen) =>
      && (forall x :: x in seen ==> BehindOk(h, bucket, table, slot, x) && bucket(h.nodes[x].key).slot < slot)
    case AtNode(slot, cur, seen) =>
      && Visible(h, cur, r.since) && bucket(h.nodes[cur].key) == Bucket(table, slot)
      && (forall x :: x in seen ==>
            && BehindOk(h, bucket, table, slot, x)
            && (bucket(h.nodes[x].key).slot == slot ==> cur < x && AliveAfter(h, cur, h.nodes[x].born)))
    case Ended(hit, seen) =>
      && (forall x :: x in seen ==> x < |h.nodes| && bucket(h.nodes[x].key).table == table)
      && (hit.Some? ==> Visible(h, hit.value, r.since) && r.goal.Find? && h.nodes[hit.value].key == r.goal.key)
  }

  predicate SeenDistinct(h: Heap, seen: seq<nat>)
  {
    forall i, j :: 0 <= i < j < |seen| ==>
      seen[i] < |h.nodes| && seen[j] < |h.nodes| && h.nodes[seen[i]].key != h.nodes[seen[j]].key
  }

  predicate ReaderOk(h: Heap, bucket: Bucketing, r: Reader)
  {
    r.Inside? ==>
      && r.since <= h.clock && CursorFits(h, r.pc)
      && CursorOk(h, bucket, r)
      && SeenDistinct(h, r.pc.seen)
      && (forall x :: x in r.pc.seen ==> Visible(h, x, r.since))
      && (r.goal.Find? ==> r.pc.seen == [])
      && (r.goal.All? ==> |r.pc.seen| <= r.goal.cap)
  }

  // Following a link keeps all of it.
  lemma OnwardOk(h: Heap, bucket: Bucketing, r: Reader)
    requires HeapOk(h, bucket) && Proper(bucket) && ReaderOk(h, bucket, r)
    requires r.Inside? && r.pc.AtNode? && h.nodes[r.pc.cur].next.Some?
    ensures var d := h.nodes[r.pc.cur].next.value;
            && Visible(h, d, r.since) && d < r.pc.cur
            && bucket(h.nodes[d].key) == bucket(h.nodes[r.pc.cur].key)
            && AliveAfter(h, d, h.nodes[r.pc.cur].born)
            && (forall x :: x in r.pc.seen && bucket(h.nodes[x].key).slot == r.pc.slot ==>
                  d < x && AliveAfter(h, d, h.nodes[x].born))
  {
    assert LinkOk(h, bucket, r.pc.cur);
  }

  // A node copied after another one of the same bucket carries another key: two nodes with
  // one key never lived at the same time, and this one outlived the other's linking.
  lemma FreshKey(h: Heap, bucket: Bucketing, r: Reader)
    requires HeapOk(h, bucket) && Proper(bucket) && ReaderOk(h, bucket, r)
    requires r.Inside? && r.pc.AtNode?
    ensures forall x :: x in r.pc.seen ==> x < |h.nodes| && h.nodes[x].key != h.nodes[r.pc.cur].key
  {
  }

  lemma ReadKeepsCursor(h: Heap, bucket: Bucketing, r: Reader)
    requires HeapOk(h, bucket) && Proper(bucket) && ReaderOk(h, bucket, r)
    requires r.Inside? && !r.pc.Ended?
    ensures CursorFits(h, ReadStep(h, r).pc) && CursorOk(h, bucket, ReadStep(h, r))
  {
    if r.pc.AtNode? {
      FreshKey(h, bucket, r);
      if h.nodes[r.pc.cur].next.Some? {
        OnwardOk(h, bucket, r);
      }
    }
  }

  lemma SeenGrows(h: Heap, seen: seq<nat>, cur: nat)
    requires SeenDistinct(h, seen) && cur < |h.nodes|
    requires forall i :: 0 <= i < |seen| ==> seen[i] < |h.nodes| && h.nodes[seen[i]].key != h.nodes[cur].key
    ensures SeenDistinct(h, seen + [cur])
  {
  }

  lemma ReadKeepsSeen(h: Heap, bucket: Bucketing, r: Reader)
    requires HeapOk(h, bucket) && Proper(bucket) && ReaderOk(h, bucket, r)
    requires r.Inside? && !r.pc.Ended?
    ensures SeenDistinct(h, ReadStep(h, r).pc.seen)
  {
    if r.pc.AtNode? {
      FreshKey(h, bucket, r);
      assert forall i :: 0 <= i < |r.pc.seen| ==> r.pc.seen[i] in r.pc.seen;
      SeenGrows(h, r.pc.seen, r.pc.cur);
    }
  }

  lemma ReadKeepsOk(h: Heap, bucket: Bucketing, r: Reader)
    requires HeapOk(h, bucket) && Proper(bucket) && ReaderOk(h, bucket, r)
    requires r.Inside? && !r.pc.Ended?
    ensures ReaderOk(h, bucket, ReadStep(h, r))
  {
    ReadKeepsCursor(h, bucket, r);
    ReadKeepsSeen(h, bucket, r);
    var seen' := ReadStep(h, r).pc.seen;
    assert seen' == r.pc.seen || (r.pc.AtNode? && seen' == r.pc.seen + [r.pc.cur]);
  }

  // What a write by others can do to the nodes a section knows: unlink one, now.
  predicate Aged(h: Heap, h': Heap)
  {
    && |h.nodes| <= |h'.nodes| && h.clock <= h'.clock
    && (forall n :: 0 <= n < |h.nodes| ==>
          && h'.nodes[n].key == h.nodes[n].key && h'.nodes[n].born == h.nodes[n].born
          && (h'.nodes[n].life == h.nodes[n].life || (h.nodes[n].life == Linked && h'.nodes[n].life == Gone(h.clock))))
  }

  lemma AgedKeepsReader(h: Heap, h': Heap, bucket: Bucketing, r: Reader)
    requires Aged(h, h') && TimesOk(h) && ReaderOk(h, bucket, r)
    ensures ReaderOk(h', bucket, r)
  {
    if r.Inside? {
      AgedKeepsSeen(h, h', r.pc.seen);
      hide SeenDistinct;
    }
  }

  lemma AgedKeepsSeen(h: Heap, h': Heap, seen: seq<nat>)
    requires Aged(h, h') && SeenDistinct(h, seen)
    ensures SeenDistinct(h', seen)
  {
    forall i, j | 0 <= i < j < |seen|
      ensures seen[i] < |h'.nodes| && seen[j] < |h'.nodes| && h'.nodes[seen[i]].key != h'.nodes[seen[j]].key
    {
      assert h'.nodes[seen[i]].key == h.nodes[seen[i]].key && h'.nodes[seen[j]].key == h.nodes[seen[j]].key;
    }
  }

  // Linking, unlinking and freeing by others disturb no open section.
  lemma WriteKeepsReader(s: State, bucket: Bucketing, w: Writer, r: Reader)
    requires Shape(s, bucket) && WriterFits(s, w)
    requires |s.pristine| == |s.flags| && HolderOk(s, w)
    requires ReaderOk(s.heap, bucket, r)
    ensures ReaderOk(NextHeap(s, bucket, w), bucket, r)
  {
    NodesStep(s, bucket, w);
    AgedKeepsReader(s.heap, NextHeap(s, bucket, w), bucket, r);
  }

  // ---------------------------------------------------------------- reclamation

  // The node a writer has unlinked and not yet freed.
  function Victim(w: Writer): Option<nat>
  {
    if w.Restore? || w.Unflag? || w.Remove? then None else Target(w)
  }

  predicate VictimOk(h: Heap, w: Writer)
  {
    Victim(w).Some? ==>
      var n := Victim(w).value;
      && n < |h.nodes| && h.nodes[n].life.Gone? && !h.nodes[n].freed
      && (h.nodes[n].statsFreed ==> w.FreeNode?)
  }

  // No two writers dispose of the same node.
  predicate VictimsDistinct(s: State)
  {
    forall v, w :: 0 <= v < w < |s.writers| && Victim(s.writers[v]).Some? ==>
      Victim(s.writers[v]) != Victim(s.writers[w])
  }

  // Every section open since before the unlink is still waited for.
  predicate GraceOk(s: State, w: Writer)
  {
    && (w.Grace? ==> HeldBy(s, w.node, w.waiting))
    && (w.FreeStats? || w.FreeNode? ==> Unheld(s, w.node))
  }

  // The sections open since before node n was unlinked are among `waiting`.
  predicate HeldBy(s: State, n: nat, waiting: set<nat>)
  {
    && n < |s.heap.nodes| && s.heap.nodes[n].life.Gone?
    && (forall r :: 0 <= r < |s.readers| && s.readers[r].Inside? && r !in waiting ==>
          s.readers[r].since > s.heap.nodes[n].life.at)
  }

  // No section open now was open before node n was unlinked.
  predicate Unheld(s: State, n: nat)
  {
    && n < |s.heap.nodes| && s.heap.nodes[n].life.Gone?
    && (forall r :: 0 <= r < |s.readers| && s.readers[r].Inside? ==> s.readers[r].since > s.heap.nodes[n].life.at)
  }

  predicate FreedOk(s: State)
  {
    forall n :: 0 <= n < |s.heap.nodes| && (s.heap.nodes[n].statsFreed || s.heap.nodes[n].freed) ==> Unheld(s, n)
  }

  ghost predicate Inv(s: State, bucket: Bucketing)
  {
    && Proper(bucket) && TableOk(s, bucket) && CountersOk(s)
    && (forall r :: 0 <= r < |s.readers| ==> ReaderOk(s.heap, bucket, s.readers[r]))
    && (forall w :: 0 <= w < |s.writers| ==> VictimOk(s.heap, s.writers[w]) && GraceOk(s, s.writers[w]))
    && VictimsDistinct(s) && FreedOk(s)
  }

  lemma ReadersStep(s: State, bucket: Bucketing, k: Step)
    requires Inv(s, bucket) && Enabled(s, k)
    ensures var s' := Apply(s, bucket, k);
            forall r :: 0 <= r < |s'.readers| ==> ReaderOk(s'.heap, bucket, s'.readers[r])
  {
    var s' := Apply(s, bucket, k);
    forall r | 0 <= r < |s'.readers|
      ensures ReaderOk(s'.heap, bucket, s'.readers[r])
    {
      assert ReaderOk(s.heap, bucket, s.readers[r]);
      if k.Write? {
        assert HolderOk(s, s.writers[k.w]) && WriterFits(s, s.writers[k.w]);
        WriteKeepsReader(s, bucket, s.writers[k.w], s.readers[r]);
      } else if k.Read? && k.r == r {
        ReadKeepsOk(s.heap, bucket, s.readers[r]);
      }
    }
  }

  // Nodes never come back, and are freed only in the two freeing steps.
  predicate Marks(h: Heap, h': Heap, w: Writer)
  {
    && |h'.nodes| >= |h.nodes| && h'.clock >= h.clock
    && (forall n :: 0 <= n < |h.nodes| ==>
          && (h.nodes[n].life.Gone? ==> h'.nodes[n].life == h.nodes[n].life)
          && h'.nodes[n].statsFreed == (h.nodes[n].statsFreed || w == FreeStats(n))
          && h'.nodes[n].freed == (h.nodes[n].freed || w == FreeNode(n)))
    && (forall n :: |h.nodes| <= n < |h'.nodes| ==> !h'.nodes[n].statsFreed && !h'.nodes[n].freed)
  }

  lemma MarksLink(h: Heap, bucket: Bucketing, key: Key, orig: Entry)
    requires HeadsOk(h, bucket)
    ensures Marks(h, Link(h, bucket, key, orig), Rest(OK))
  {
    LinkFields(h, bucket, key, orig);
    hide Link;
  }

  lemma MarksUnlink(h: Heap, bucket: Bucketing, d: nat)
    requires Removable(h, bucket, d) && h.nodes[d].life == Linked
    ensures Marks(h, Unlink(h, bucket, d), Rest(OK))
  {
    UnlinkFields(h, bucket, d);
    hide Unlink, Removable;
  }

  lemma MarksWrite(s: State, bucket: Bucketing, w: Writer)
    requires Shape(s, bucket) && WriterFits(s, w)
    requires |s.pristine| == |s.flags| && HolderOk(s, w)
    ensures Marks(s.heap, NextHeap(s, bucket, w), w)
  {
    if w.Publish? {
      MarksLink(s.heap, bucket, w.key, w.orig);
    } else if w.Remove? {
      assert LinkOk(s.heap, bucket, w.node) && PprevOk(s.heap, bucket, w.node);
      MarksUnlink(s.heap, bucket, w.node);
    }
  }

  lemma MarksStep(s: State, bucket: Bucketing, k: Step)
    requires Inv(s, bucket) && Enabled(s, k)
    ensures Marks(s.heap, Apply(s, bucket, k).heap, if k.Write? then s.writers[k.w] else Rest(OK))
  {
    if k.Write? {
      assert HolderOk(s, s.writers[k.w]) && WriterFits(s, s.writers[k.w]);
      MarksWrite(s, bucket, s.writers[k.w]);
    }
  }

  // Opening stamps the section after every unlink so far; only open sections can be held.
  lemma HeldStep(s: State, bucket: Bucketing, k: Step, n: nat, waiting: set<nat>)
    requires Inv(s, bucket) && Enabled(s, k) && HeldBy(s, n, waiting)
    ensures HeldBy(Apply(s, bucket, k), n, if k.Close? then waiting - {k.r} else waiting)
  {
    MarksStep(s, bucket, k);
  }

  lemma UnheldIsHeldByNone(s: State, n: nat)
    ensures Unheld(s, n) <==> HeldBy(s, n, {})
  {
  }

  lemma FreedStep(s: State, bucket: Bucketing, k: Step)
    requires Inv(s, bucket) && Enabled(s, k)
    ensures FreedOk(Apply(s, bucket, k))
  {
    var s' := Apply(s, bucket, k);
    MarksStep(s, bucket, k);
    forall n | 0 <= n < |s'.heap.nodes| && (s'.heap.nodes[n].statsFreed || s'.heap.nodes[n].freed)
      ensures Unheld(s', n)
    {
      assert n < |s.heap.nodes|;
      assert k.Write? ==> GraceOk(s, s.writers[k.w]);
      assert Unheld(s, n);
      UnheldIsHeldByNone(s, n);
      HeldStep(s, bucket, k, n, {});
      UnheldIsHeldByNone(s', n);
    }
  }

  lemma VictimMove(s: State, bucket: Bucketing, i: nat)
    requires Inv(s, bucket) && Enabled(s, Write(i))
    ensures VictimOk(WriteStep(s, bucket, i).heap, WriteStep(s, bucket, i).writers[i])
  {
    hide HeapOk, Coupled, OrigOk, ReaderOk, LockOk, GraceOk, Search;
    var w := s.writers[i];
    assert HolderOk(s, w) && WriterFits(s, w) && VictimOk(s.heap, w);
    MarksWrite(s, bucket, w);
    NodesStep(s, bucket, w);
    if w.Remove? {
      assert s.heap.nodes[w.node].freed || s.heap.nodes[w.node].statsFreed ==> Unheld(s, w.node);
    }
  }

  // Which grace obligations a writer enters with its step.
  lemma GraceEntered(s: State, bucket: Bucketing, i: nat)
    requires Shape(s, bucket) && Enabled(s, Write(i))
    ensures var w, w' := s.writers[i], WriteStep(s, bucket, i).writers[i];
            && (w'.Grace? ==> w.Sync? && w' == Grace(w.node, OpenReaders(s)))
            && (w'.FreeStats? ==> w.Grace? && w.waiting == {} && w'.node == w.node)
            && (w'.FreeNode? ==> w.FreeStats? && w'.node == w.node)
  {
  }

  lemma GraceMove(s: State, bucket: Bucketing, i: nat)
    requires Inv(s, bucket) && Enabled(s, Write(i))
    ensures GraceOk(WriteStep(s, bucket, i), WriteStep(s, bucket, i).writers[i])
  {
    hide HeapOk, Coupled, OrigOk, ReaderOk, LockOk, Search;
    var w := s.writers[i];
    GraceEntered(s, bucket, i);
    if w.Sync? {
      assert VictimOk(s.heap, w);
      assert HeldBy(s, w.node, OpenReaders(s));
      HeldStep(s, bucket, Write(i), w.node, OpenReaders(s));
    } else if w.Grace? || w.FreeStats? {
      assert GraceOk(s, w);
      HeldStep(s, bucket, Write(i), w.node, {});
    }
  }

  // A writer that does not move keeps its victim and its grace period.
  lemma GraceOthers(s: State, bucket: Bucketing, k: Step, w: nat)
    requires Inv(s, bucket) && Enabled(s, k) && w < |s.writers| && !(k.Write? && k.w == w)
    ensures w < |Apply(s, bucket, k).writers|
    ensures GraceOk(Apply(s, bucket, k), Apply(s, bucket, k).writers[w])
  {
    WritersFrame(s, bucket, k);
    assert GraceOk(s, s.writers[w]);
    if s.writers[w].Grace? {
      HeldStep(s, bucket, k, s.writers[w].node, s.writers[w].waiting);
    } else if s.writers[w].FreeStats? || s.writers[w].FreeNode? {
      HeldStep(s, bucket, k, s.writers[w].node, {});
    }
  }

  lemma VictimOthers(s: State, bucket: Bucketing, k: Step, w: nat)
    requires Inv(s, bucket) && Enabled(s, k) && w < |s.writers| && !(k.Write? && k.w == w)
    ensures w < |Apply(s, bucket, k).writers|
    ensures VictimOk(Apply(s, bucket, k).heap, Apply(s, bucket, k).writers[w])
  {
    WritersFrame(s, bucket, k);
    MarksStep(s, bucket, k);
    assert VictimOk(s.heap, s.writers[w]);
    if k.Write? {
      OtherVictim(s, bucket, k.w, w);
    }
    hide Inv, Apply, NextWriter;
  }

  // No writer is freeing what another disposes of.
  lemma OtherVictim(s: State, bucket: Bucketing, i: nat, w: nat)
    requires Inv(s, bucket) && i < |s.writers| && w < |s.writers| && i != w
    ensures Victim(s.writers[w]).Some? ==>
              var v := Victim(s.writers[w]).value;
              s.writers[i] != FreeStats(v) && s.writers[i] != FreeNode(v)
  {
  }

  lemma GraceStep(s: State, bucket: Bucketing, k: Step)
    requires Inv(s, bucket) && Enabled(s, k)
    ensures var s' := Apply(s, bucket, k);
            forall w :: 0 <= w < |s'.writers| ==> VictimOk(s'.heap, s'.writers[w]) && GraceOk(s', s'.writers[w])
  {
    var s' := Apply(s, bucket, k);
    forall w | 0 <= w < |s'.writers|
      ensures VictimOk(s'.heap, s'.writers[w]) && GraceOk(s', s'.writers[w])
    {
      if k.Write? && k.w == w {
        VictimMove(s, bucket, w);
        GraceMove(s, bucket, w);
      } else {
        VictimOthers(s, bucket, k, w);
        GraceOthers(s, bucket, k, w);
      }
    }
  }

  lemma VictimEntered(s: State, bucket: Bucketing, i: nat)
    requires Shape(s, bucket) && Enabled(s, Write(i))
    ensures var w, w' := s.writers[i], WriteStep(s, bucket, i).writers[i];
            Victim(w') == Victim(w) || Victim(w') == None || (w.Remove? && Victim(w') == Some(w.node))
  {
  }

  lemma VictimKept(s: State, bucket: Bucketing, k: Step, w: nat)
    requires Inv(s, bucket) && Enabled(s, k) && w < |s.writers| && !(k.Write? && k.w == w)
    ensures var s' := Apply(s, bucket, k);
            && |s'.writers| == |s.writers|
            && (Victim(s'.writers[w]) == Victim(s.writers[w]) || Victim(s'.writers[w]) == None)
    ensures k.Write? && s.writers[k.w].Remove? ==> Victim(s.writers[w]) != Some(s.writers[k.w].node)
  {
    WritersFrame(s, bucket, k);
    assert VictimOk(s.heap, s.writers[w]);
    hide HeapOk, Coupled, ReaderOk, HolderOk, Apply;
  }

  lemma VictimsStep(s: State, bucket: Bucketing, k: Step)
    requires Inv(s, bucket) && Enabled(s, k)
    ensures VictimsDistinct(Apply(s, bucket, k))
  {
    WritersFrame(s, bucket, k);
    if k.Write? {
      VictimEntered(s, bucket, k.w);
    }
    hide TableOk, CountersOk, ReaderOk, Apply, NextWriter, Victim;
    forall w | 0 <= w < |s.writers| && !(k.Write? && k.w == w)
      ensures var v' := Victim(Apply(s, bucket, k).writers[w]); v' == Victim(s.writers[w]) || v' == None
      ensures k.Write? && s.writers[k.w].Remove? ==> Victim(s.writers[w]) != Some(s.writers[k.w].node)
    {
      VictimKept(s, bucket, k, w);
    }
  }

  lemma InvStep(s: State, bucket: Bucketing, k: Step)
    requires Inv(s, bucket) && Enabled(s, k)
    ensures Inv(Apply(s, bucket, k), bucket)
  {
    TableStep(s, bucket, k);
    CountersStep(s, bucket, k);
    ReadersStep(s, bucket, k);
    GraceStep(s, bucket, k);
    VictimsStep(s, bucket, k);
    FreedStep(s, bucket, k);
  }
}
