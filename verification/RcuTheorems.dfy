// The registries over whole runs: what the syscall table, a lookup, an enumeration and a
// freed node have to do with each other.
module RcuTheorems {
  import opened Wrappers
  import opened Errno
  import opened Sums
  import opened RcuHeap
  import opened Rcu
  import opened RcuSafety
  import opened RcuReclaim

  ghost predicate IsRun(ss: seq<State>, ks: seq<Step>, bucket: Bucketing)
  {
    && |ss| == |ks| + 1 && Init(ss[0]) && Proper(bucket)
    && (forall i {:trigger ks[i]} :: 0 <= i < |ks| ==> Next(ss[i], bucket, ks[i], ss[i + 1]))
  }

  predicate Next(s: State, bucket: Bucketing, k: Step, s': State)
  {
    Shape(s, bucket) && Enabled(s, k) && s' == Apply(s, bucket, k)
  }

  // ---------------------------------------------------------------- invariants of every run

  // The pointer a lookup copied, or its absence.
  predicate CallOk(s: State, r: Reader)
  {
    && (r.call.Some? && r.goal.Find? && r.goal.key.Sys? ==>
          r.goal.key.nr < |s.pristine| && r.call.value == s.pristine[r.goal.key.nr])
    && (r.Inside? && r.goal.Find? ==> (r.call.Some? <==> r.pc.Ended? && r.pc.hit.Some?))
  }

  predicate NoFault(w: Writer)
  {
    && (w.Rest? || w.Unlock? ==> w.res in {OK, EEXIST, ENOENT})
    && (w.Unlock? && w.victim.Some? ==> w.res == OK)
  }

  ghost predicate RunInv(s: State, bucket: Bucketing)
  {
    && Inv(s, bucket)
    && (forall r :: 0 <= r < |s.readers| ==> CallOk(s, s.readers[r]))
    && (forall w :: 0 <= w < |s.writers| ==> NoFault(s.writers[w]))
  }

  lemma InitInv(s: State, bucket: Bucketing)
    requires Init(s) && Proper(bucket)
    ensures RunInv(s, bucket)
  {
    SumZero(Bit, s.flags);
  }

  lemma CallsStep(s: State, bucket: Bucketing, k: Step)
    requires RunInv(s, bucket) && Enabled(s, k)
    ensures var s' := Apply(s, bucket, k);
            forall r :: 0 <= r < |s'.readers| ==> CallOk(s', s'.readers[r])
  {
    var s' := Apply(s, bucket, k);
    forall r | 0 <= r < |s'.readers|
      ensures CallOk(s', s'.readers[r])
    {
      assert CallOk(s, s.readers[r]) && ReaderOk(s.heap, bucket, s.readers[r]);
      if k.Read? && k.r == r {
        ReadKeepsCursor(s.heap, bucket, s.readers[r]);
      }
    }
  }

  // -EFAULT never happens: a flagged number always has its node.
  lemma FaultsStep(s: State, bucket: Bucketing, k: Step)
    requires RunInv(s, bucket) && Enabled(s, k)
    ensures var s' := Apply(s, bucket, k);
            forall w :: 0 <= w < |s'.writers| ==> NoFault(s'.writers[w])
  {
    var s' := Apply(s, bucket, k);
    WritersFrame(s, bucket, k);
    if k.Write? && s.writers[k.w].Seek? {
      assert HolderOk(s, s.writers[k.w]);
      SeekMove(s, bucket, s.writers[k.w].nr);
    }
    forall w | 0 <= w < |s'.writers|
      ensures NoFault(s'.writers[w])
    {
      assert NoFault(s.writers[w]);
    }
  }

  lemma RunInvStep(s: State, bucket: Bucketing, k: Step, s': State)
    requires RunInv(s, bucket) && Next(s, bucket, k, s')
    ensures RunInv(s', bucket) && s'.pristine == s.pristine
  {
    InvStep(s, bucket, k);
    CallsStep(s, bucket, k);
    FaultsStep(s, bucket, k);
  }

  lemma {:induction false} RunInvHolds(ss: seq<State>, ks: seq<Step>, bucket: Bucketing, i: nat)
    requires IsRun(ss, ks, bucket) && i < |ss|
    ensures RunInv(ss[i], bucket) && ss[i].pristine == ss[0].pristine
  {
    if i == 0 {
      InitInv(ss[0], bucket);
    } else {
      hide RunInv, Next;
      RunInvHolds(ss, ks, bucket, i - 1);
      RunInvStep(ss[i - 1], bucket, ks[i - 1], ss[i - 1 + 1]);
    }
  }

  // In a reachable state every enabled step can be taken.
  lemma StepsAreDefined(ss: seq<State>, ks: seq<Step>, bucket: Bucketing, k: Step)
    requires IsRun(ss, ks, bucket) && Enabled(ss[|ks|], k)
    ensures Shape(ss[|ks|], bucket)
    ensures IsRun(ss + [Apply(ss[|ks|], bucket, k)], ks + [k], bucket)
  {
    RunInvHolds(ss, ks, bucket, |ks|);
    var ss', ks' := ss + [Apply(ss[|ks|], bucket, k)], ks + [k];
    forall i | 0 <= i < |ks'|
      ensures Next(ss'[i], bucket, ks'[i], ss'[i + 1])
    {
      if i < |ks| {
        assert Next(ss[i], bucket, ks[i], ss[i + 1]);
        assert ss'[i + 1] == ss[i + 1];
      }
    }
  }

  // ---------------------------------------------------------------- the syscall table

  ghost predicate OneNodePerKey(h: Heap)
  {
    forall m: nat, n: nat :: IsLinked(h, m) && IsLinked(h, n) && h.nodes[m].key == h.nodes[n].key ==> m == n
  }

  // Whenever the lock is free: flag, wrapper in the table and a linked node go together,
  // the node is unique and stores the pristine entry, and the counters are the sizes.
  lemma TableMatchesRegistry(ss: seq<State>, ks: seq<Step>, bucket: Bucketing, i: nat)
    requires IsRun(ss, ks, bucket) && i < |ss| && ss[i].lock == None
    ensures var s := ss[i];
            && |s.table| == |s.flags| == |s.pristine|
            && (forall nr :: 0 <= nr < |s.flags| ==>
                  && (s.flags[nr] <==> s.table[nr] == Wrapper)
                  && (s.flags[nr] <==> !Absent(s.heap, Sys(nr)))
                  && (!s.flags[nr] ==> s.table[nr] == s.pristine[nr]))
            && OneNodePerKey(s.heap) && OrigOk(s)
            && s.sysLen == Sum(Bit, s.flags) == Sum(LinkedIn0, s.heap.nodes)
            && s.uidLen == Sum(LinkedIn1, s.heap.nodes)
            && s.progLen == Sum(LinkedIn2, s.heap.nodes)
  {
    RunInvHolds(ss, ks, bucket, i);
  }

  // A run that ends with everything deregistered has restored the initial table.
  lemma DeregisteringAllRestoresTable(ss: seq<State>, ks: seq<Step>, bucket: Bucketing, i: nat)
    requires IsRun(ss, ks, bucket) && i < |ss| && ss[i].lock == None
    requires forall nr :: 0 <= nr < |ss[i].flags| ==> !ss[i].flags[nr]
    ensures ss[i].table == ss[0].table
    ensures forall nr :: 0 <= nr < |ss[i].flags| ==> Absent(ss[i].heap, Sys(nr))
    ensures ss[i].sysLen == 0
  {
    TableMatchesRegistry(ss, ks, bucket, i);
    RunInvHolds(ss, ks, bucket, i);
    RunInvHolds(ss, ks, bucket, 0);
    SumZero(Bit, ss[i].flags);
  }

  predicate Registering(w: Writer, nr: nat)
  {
    (w.Flag? && w.nr == nr) || (w.Publish? && w.key == Sys(nr))
  }

  // The wrapper is in the table without a node to look up exactly while a registration is
  // between the table write (:68) and the link (:76).
  lemma GapIsRegistration(ss: seq<State>, ks: seq<Step>, bucket: Bucketing, i: nat, nr: nat)
    requires IsRun(ss, ks, bucket) && i < |ss| && nr < |ss[i].table|
    ensures (ss[i].table[nr] == Wrapper && Absent(ss[i].heap, Sys(nr))) <==> Registering(Holder(ss[i]), nr)
  {
    RunInvHolds(ss, ks, bucket, i);
    if ss[i].lock.Some? && ss[i].lock.value < |ss[i].writers| {
      assert HolderOk(ss[i], Holder(ss[i]));
    }
    assert Patched(Holder(ss[i]), nr, ss[i].flags[nr]) ==> ss[i].table[nr] == Wrapper;
  }

  lemma FaultUnreachable(ss: seq<State>, ks: seq<Step>, bucket: Bucketing, i: nat, w: nat)
    requires IsRun(ss, ks, bucket) && i < |ss| && w < |ss[i].writers|
    requires ss[i].writers[w].Rest? || ss[i].writers[w].Unlock?
    ensures ss[i].writers[w].res != EFAULT
  {
    RunInvHolds(ss, ks, bucket, i);
    assert NoFault(ss[i].writers[w]);
  }

  // The pointer the wrapper keeps after a lookup of a syscall number is NULL or that
  // number's pristine entry, so never the wrapper, whatever registrations came in between.
  lemma WrapperNeverCallsItself(ss: seq<State>, ks: seq<Step>, bucket: Bucketing, i: nat, r: nat, nr: nat)
    requires IsRun(ss, ks, bucket) && i < |ss| && r < |ss[i].readers|
    requires ss[i].readers[r].goal == Find(Sys(nr)) && ss[i].readers[r].call.Some?
    ensures nr < |ss[0].pristine| && ss[i].readers[r].call.value == ss[0].pristine[nr]
    ensures ss[i].readers[r].call.value != Wrapper
  {
    RunInvHolds(ss, ks, bucket, i);
    RunInvHolds(ss, ks, bucket, 0);
    assert CallOk(ss[i], ss[i].readers[r]);
  }

  // ---------------------------------------------------------------- reclamation

  // x can be reached from c by following links.
  predicate Reaches(h: Heap, bucket: Bucketing, c: nat, x: nat)
    requires LinksOk(h, bucket) && c < |h.nodes|
    decreases c
  {
    c == x ||
    (h.nodes[c].next.Some? &&
     (assert LinkOk(h, bucket, c);
      Reaches(h, bucket, h.nodes[c].next.value, x)))
  }

  lemma {:induction false} ReachedIsVisible(h: Heap, bucket: Bucketing, c: nat, x: nat, t: nat)
    requires HeapOk(h, bucket) && Visible(h, c, t) && Reaches(h, bucket, c, x)
    ensures Visible(h, x, t)
    decreases c
  {
    if c != x {
      assert LinkOk(h, bucket, c);
      ReachedIsVisible(h, bucket, h.nodes[c].next.value, x, t);
    }
  }

  // The node an open section holds: its cursor, or what its search found.
  predicate Holds(r: Reader, c: nat)
  {
    r.Inside? && ((r.pc.AtNode? && r.pc.cur == c) || (r.pc.Ended? && r.pc.hit == Some(c)))
  }

  // No open read section can reach a freed node, or one whose statistics are freed: not the
  // wrapper, the checks or the listings on their way, nor a recorder using what it found.
  lemma SafeReclamation(ss: seq<State>, ks: seq<Step>, bucket: Bucketing, i: nat, r: nat, c: nat, x: nat)
    requires IsRun(ss, ks, bucket) && i < |ss| && r < |ss[i].readers| && Holds(ss[i].readers[r], c)
    requires Shape(ss[i], bucket) && c < |ss[i].heap.nodes| && Reaches(ss[i].heap, bucket, c, x)
    ensures x < |ss[i].heap.nodes| && !ss[i].heap.nodes[x].freed && !ss[i].heap.nodes[x].statsFreed
  {
    RunInvHolds(ss, ks, bucket, i);
    var s := ss[i];
    assert ReaderOk(s.heap, bucket, s.readers[r]);
    ReachedIsVisible(s.heap, bucket, c, x, s.readers[r].since);
    assert s.heap.nodes[x].freed || s.heap.nodes[x].statsFreed ==> Unheld(s, x);
  }
}
