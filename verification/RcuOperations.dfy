// What a registration or deregistration means when readers and other writers run beside it
// (src/throttling_api.c:26-296): its answer against what its own steps did to its key, said
// with the run and the linked nodes alone.
module RcuOperations {
  import opened Wrappers
  import opened RcuHeap
  import opened Rcu
  import opened RcuSafety
  import opened RcuReclaim
  import opened RcuTheorems

  // ---------------------------------------------------------------- an operation in a run

  // Writer w begins op with the step from state a, and is back at rest, for the first time
  // since, in state b.
  ghost predicate IsOperation(ss: seq<State>, ks: seq<Step>, bucket: Bucketing, w: nat, op: Op, a: nat, b: nat)
  {
    IsUnderWay(ss, ks, bucket, w, op, a, b) && w < |ss[b].writers| && ss[b].writers[w].Rest?
  }

  ghost predicate IsUnderWay(ss: seq<State>, ks: seq<Step>, bucket: Bucketing, w: nat, op: Op, a: nat, b: nat)
  {
    && IsRun(ss, ks, bucket) && a < b < |ss| && ks[a] == Begin(w, op)
    && (forall x :: a < x < b ==> w < |ss[x].writers| && !ss[x].writers[w].Rest?)
  }

  // What an addition or a removal is to do to its key, and what stands in its way.
  predicate Achieves(op: Op, h: Heap, h': Heap)
  {
    match op
    case Add(k) => Absent(h, k) && !Absent(h', k)
    case Del(k) => !Absent(h, k) && Absent(h', k)
  }

  predicate Prevents(op: Op, h: Heap)
  {
    match op
    case Add(k) => !Absent(h, k)
    case Del(k) => Absent(h, k)
  }

  // One of the writer's own steps from a to b does it.
  predicate Achieved(ss: seq<State>, ks: seq<Step>, w: nat, op: Op, a: nat, b: nat)
    requires |ss| == |ks| + 1 && b < |ss|
  {
    exists x :: a <= x < b && ks[x] == Write(w) && Achieves(op, ss[x].heap, ss[x + 1].heap)
  }

  predicate Prevented(ss: seq<State>, op: Op, a: nat, b: nat)
    requires b < |ss|
  {
    exists y :: a <= y <= b && Prevents(op, ss[y].heap)
  }

  // ---------------------------------------------------------------- where it stands

  predicate AnswerOk(op: Op, res: int, did: bool, saw: bool)
  {
    (res == 0 && did) || (res == (if op.Add? then -17 else -2) && !did && saw)
  }

  // Where an addition of k can be, given what it has done.
  predicate AddOk(w: Writer, k: Key, did: bool, saw: bool)
  {
    match w
    case Rest(res) => AnswerOk(Add(k), res, did, saw)
    case Unlock(res, v) => v == None && AnswerOk(Add(k), res, did, saw)
    case Lock(op) => op == Add(k) && !did
    case Check(op) => op == Add(k) && !did
    case Save(nr) => k == Sys(nr) && !did
    case Patch(nr, _) => k == Sys(nr) && !did
    case Flag(nr, _) => k == Sys(nr) && !did
    case Publish(key, _) => key == k && !did
    case CountUp(key) => key == k && did
    case _ => false
  }

  predicate DelOk(w: Writer, k: Key, did: bool, saw: bool)
  {
    match w
    case Rest(res) => AnswerOk(Del(k), res, did, saw)
    case Unlock(res, v) => (res == 0 <==> v.Some?) && AnswerOk(Del(k), res, did, saw)
    case Lock(op) => op == Del(k) && !did
    case Check(op) => op == Del(k) && !did
    case Seek(nr) => k == Sys(nr) && !did
    case Restore(nr, _) => k == Sys(nr) && !did
    case Unflag(nr, _) => k == Sys(nr) && !did
    case Remove(key, _) => key == k && !did
    case CountDown(key, _) => key == k && did
    case Sync(_) => did
    case Grace(_, _) => did
    case FreeStats(_) => did
    case FreeNode(_) => did
    case _ => false
  }

  predicate OpOk(w: Writer, op: Op, did: bool, saw: bool)
  {
    if op.Add? then AddOk(w, op.key, did, saw) else DelOk(w, op.key, did, saw)
  }

  // The check refuses with the reason at hand.
  lemma CheckSees(s: State, bucket: Bucketing, op: Op)
    requires TableOk(s, bucket) && InRange(s, op.key) && Holder(s) == Check(op)
    ensures CheckStep(s, bucket, op).Unlock? <==> Prevents(op, s.heap)
  {
    FoundDecides(s, bucket, op.key);
    if op.key.Sys? {
      assert Present(Holder(s), op.key.nr, s.flags[op.key.nr]) <==> !Absent(s.heap, op.key);
    }
  }

  // A step does it exactly by linking, or unlinking, the key.
  lemma StepAchieves(s: State, bucket: Bucketing, w: Writer, op: Op)
    requires Shape(s, bucket) && WriterFits(s, w) && |s.pristine| == |s.flags| && HolderOk(s, w)
    ensures Achieves(op, s.heap, NextHeap(s, bucket, w)) <==>
              (if op.Add? then w.Publish? else w.Remove?) && w.key == op.key
  {
    AbsentStep(s, bucket, w, op.key);
    assert w.Publish? ==> Absent(s.heap, w.key);
    assert w.Remove? ==> IsLinked(s.heap, w.node) && s.heap.nodes[w.node].key == w.key;
    hide Shape, HolderOk, NextHeap;
  }

  lemma CheckOk(s: State, bucket: Bucketing, op: Op, did: bool, saw: bool)
    requires TableOk(s, bucket) && InRange(s, op.key) && Holder(s) == Check(op) && !did
    ensures OpOk(CheckStep(s, bucket, op), op, did, saw || Prevents(op, s.heap))
  {
    CheckSees(s, bucket, op);
    hide TableOk, Holder, Shape, Found, Absent;
  }

  // One step of the writer itself.
  lemma OwnStep(s: State, bucket: Bucketing, i: nat, op: Op, did: bool, saw: bool)
    requires TableOk(s, bucket) && Enabled(s, Write(i)) && OpOk(s.writers[i], op, did, saw)
    ensures var s' := WriteStep(s, bucket, i);
            OpOk(s'.writers[i], op, did || Achieves(op, s.heap, s'.heap), saw || Prevents(op, s.heap))
  {
    hide HeapOk, OrigOk, Search, Achieves, Prevents, Coupled, Absent, NextHeap, CheckStep;
    var w := s.writers[i];
    assert HolderOk(s, w) && WriterFits(s, w);
    StepAchieves(s, bucket, w, op);
    if w.Check? {
      assert Holder(s) == w;
      CheckOk(s, bucket, w.op, did, saw);
    } else if w.Seek? {
      assert Holder(s) == w;
      SeekMove(s, bucket, w.nr);
    }
    hide TableOk, HolderOk;
  }

  // A writer that does not move keeps its place, but for sections it need not wait for any more.
  lemma OthersStep(s: State, bucket: Bucketing, k: Step, w: nat, op: Op, did: bool, saw: bool)
    requires Shape(s, bucket) && Enabled(s, k) && w < |s.writers| && k != Write(w) && !s.writers[w].Rest?
    requires OpOk(s.writers[w], op, did, saw)
    ensures var s' := Apply(s, bucket, k);
            w < |s'.writers| && OpOk(s'.writers[w], op, did, saw)
  {
    WritersFrame(s, bucket, k);
    hide Apply, Shape;
  }

  // ---------------------------------------------------------------- over a run

  lemma SeenOn(ss: seq<State>, ks: seq<Step>, w: nat, op: Op, a: nat, b: nat)
    requires |ss| == |ks| + 1 && a <= b && b + 1 < |ss|
    ensures Achieved(ss, ks, w, op, a, b + 1) <==>
              Achieved(ss, ks, w, op, a, b) || (ks[b] == Write(w) && Achieves(op, ss[b].heap, ss[b + 1].heap))
    ensures Prevented(ss, op, a, b) ==> Prevented(ss, op, a, b + 1)
    ensures Prevents(op, ss[b].heap) ==> Prevented(ss, op, a, b)
  {
    hide Achieves, Prevents;
    if Achieved(ss, ks, w, op, a, b) {
      var x :| a <= x < b && ks[x] == Write(w) && Achieves(op, ss[x].heap, ss[x + 1].heap);
      assert a <= x < b + 1;
    }
    if Prevented(ss, op, a, b) {
      var y :| a <= y <= b && Prevents(op, ss[y].heap);
      assert a <= y <= b + 1;
    }
  }

  lemma SawMore(w: Writer, op: Op, did: bool, saw: bool, saw': bool)
    requires OpOk(w, op, did, saw) && (saw ==> saw')
    ensures OpOk(w, op, did, saw')
  {
  }

  lemma Begins(ss: seq<State>, ks: seq<Step>, bucket: Bucketing, w: nat, op: Op, a: nat, saw: bool)
    requires IsRun(ss, ks, bucket) && a < |ks| && ks[a] == Begin(w, op)
    ensures w < |ss[a + 1].writers| && OpOk(ss[a + 1].writers[w], op, false, saw)
    ensures !Achieved(ss, ks, w, op, a, a + 1)
  {
    assert Next(ss[a], bucket, ks[a], ss[a + 1]);
    hide IsRun, Shape;
  }

  lemma Goes(ss: seq<State>, ks: seq<Step>, bucket: Bucketing, w: nat, op: Op, j: nat, did: bool, saw: bool)
    requires IsRun(ss, ks, bucket) && j < |ks| && w < |ss[j].writers| && !ss[j].writers[w].Rest?
    requires OpOk(ss[j].writers[w], op, did, saw)
    ensures w < |ss[j + 1].writers|
    ensures var did' := did || (ks[j] == Write(w) && Achieves(op, ss[j].heap, ss[j + 1].heap));
            OpOk(ss[j + 1].writers[w], op, did', saw || Prevents(op, ss[j].heap))
  {
    var s, k := ss[j], ks[j];
    RunInvHolds(ss, ks, bucket, j);
    assert Next(s, bucket, k, ss[j + 1]);
    if k == Write(w) {
      OwnStep(s, bucket, w, op, did, saw);
    } else {
      OthersStep(s, bucket, k, w, op, did, saw);
      SawMore(Apply(s, bucket, k).writers[w], op, did, saw, saw || Prevents(op, s.heap));
    }
    hide IsRun, RunInv, Shape, OpOk, Achieves, Prevents;
  }

  lemma StandsOn(ss: seq<State>, ks: seq<Step>, bucket: Bucketing, w: nat, op: Op, a: nat, j: nat)
    requires |ss| == |ks| + 1 && a <= j < |ks| && w < |ss[j].writers| && !ss[j].writers[w].Rest?
    requires IsRun(ss, ks, bucket)
    requires OpOk(ss[j].writers[w], op, Achieved(ss, ks, w, op, a, j), Prevented(ss, op, a, j))
    ensures w < |ss[j + 1].writers|
    ensures OpOk(ss[j + 1].writers[w], op, Achieved(ss, ks, w, op, a, j + 1), Prevented(ss, op, a, j + 1))
  {
    hide OpOk, Achieved, Prevented, IsRun, Achieves, Prevents;
    SeenOn(ss, ks, w, op, a, j);
    var did, saw := Achieved(ss, ks, w, op, a, j), Prevented(ss, op, a, j);
    Goes(ss, ks, bucket, w, op, j, did, saw);
    SawMore(ss[j + 1].writers[w], op, Achieved(ss, ks, w, op, a, j + 1), saw || Prevents(op, ss[j].heap),
            Prevented(ss, op, a, j + 1));
  }

  lemma UnderWayBefore(ss: seq<State>, ks: seq<Step>, bucket: Bucketing, w: nat, op: Op, a: nat, b: nat)
    requires IsUnderWay(ss, ks, bucket, w, op, a, b)
    ensures IsRun(ss, ks, bucket) && |ss| == |ks| + 1 && a < b < |ss| && ks[a] == Begin(w, op)
    ensures b > a + 1 ==>
              IsUnderWay(ss, ks, bucket, w, op, a, b - 1) && w < |ss[b - 1].writers| && !ss[b - 1].writers[w].Rest?
  {
    assert |ss| == |ks| + 1;
    hide IsRun;
  }

  lemma {:induction false} Stands(ss: seq<State>, ks: seq<Step>, bucket: Bucketing, w: nat, op: Op, a: nat, b: nat)
    requires IsUnderWay(ss, ks, bucket, w, op, a, b)
    ensures |ss| == |ks| + 1 && b < |ss| && w < |ss[b].writers|
    ensures OpOk(ss[b].writers[w], op, Achieved(ss, ks, w, op, a, b), Prevented(ss, op, a, b))
    decreases b
  {
    hide *;
    UnderWayBefore(ss, ks, bucket, w, op, a, b);
    if b == a + 1 {
      Begins(ss, ks, bucket, w, op, a, Prevented(ss, op, a, b));
    } else {
      Stands(ss, ks, bucket, w, op, a, b - 1);
      StandsOn(ss, ks, bucket, w, op, a, b - 1);
    }
  }

  // ---------------------------------------------------------------- main results

  // A registration answers 0 exactly if one of its own steps took its key from absent to
  // linked, and -EEXIST only if the key was linked at some moment of it.
  lemma RegistrationMeans(ss: seq<State>, ks: seq<Step>, bucket: Bucketing, w: nat, k: Key, a: nat, b: nat)
    requires IsOperation(ss, ks, bucket, w, Add(k), a, b)
    ensures var res := ss[b].writers[w].res;
            && (res == 0 || res == -17)
            && (res == 0 <==> exists x :: a <= x < b && ks[x] == Write(w)
                                          && Absent(ss[x].heap, k) && !Absent(ss[x + 1].heap, k))
            && (res == -17 ==> exists y :: a <= y <= b && !Absent(ss[y].heap, k))
  {
    Stands(ss, ks, bucket, w, Add(k), a, b);
    hide IsRun, Absent;
    if Achieved(ss, ks, w, Add(k), a, b) {
      var x :| a <= x < b && ks[x] == Write(w) && Achieves(Add(k), ss[x].heap, ss[x + 1].heap);
      assert Absent(ss[x].heap, k) && !Absent(ss[x + 1].heap, k);
    }
  }

  // A deregistration answers 0 exactly if one of its own steps made its key absent, and
  // -ENOENT only if the key was absent at some moment of it.
  lemma DeregistrationMeans(ss: seq<State>, ks: seq<Step>, bucket: Bucketing, w: nat, k: Key, a: nat, b: nat)
    requires IsOperation(ss, ks, bucket, w, Del(k), a, b)
    ensures var res := ss[b].writers[w].res;
            && (res == 0 || res == -2)
            && (res == 0 <==> exists x :: a <= x < b && ks[x] == Write(w)
                                          && !Absent(ss[x].heap, k) && Absent(ss[x + 1].heap, k))
            && (res == -2 ==> exists y :: a <= y <= b && Absent(ss[y].heap, k))
  {
    Stands(ss, ks, bucket, w, Del(k), a, b);
    hide IsRun, Absent;
    if Achieved(ss, ks, w, Del(k), a, b) {
      var x :| a <= x < b && ks[x] == Write(w) && Achieves(Del(k), ss[x].heap, ss[x + 1].heap);
      assert !Absent(ss[x].heap, k) && Absent(ss[x + 1].heap, k);
    }
  }

  // ---------------------------------------------------------------- what was unlinked is freed

  // Where the writer is in disposing of node n.
  predicate DisposeOk(w: Writer, h: Heap, n: nat)
  {
    n < |h.nodes| &&
    match w
    case CountDown(_, m) => m == n
    case Unlock(_, v) => v == Some(n)
    case Sync(m) => m == n
    case Grace(m, _) => m == n
    case FreeStats(m) => m == n
    case FreeNode(m) => m == n && h.nodes[n].statsFreed
    case Rest(_) => h.nodes[n].statsFreed && h.nodes[n].freed
    case _ => false
  }

  // Step x of the writer unlinks node n, which carries the key.
  predicate Unlinks(ss: seq<State>, ks: seq<Step>, w: nat, k: Key, x: nat, n: nat)
    requires |ss| == |ks| + 1 && x < |ks|
  {
    && ks[x] == Write(w) && IsLinked(ss[x].heap, n) && ss[x].heap.nodes[n].key == k
    && n < |ss[x + 1].heap.nodes| && ss[x + 1].heap.nodes[n].life.Gone?
  }

  predicate Disposes(ss: seq<State>, ks: seq<Step>, w: nat, k: Key, a: nat, b: nat)
    requires |ss| == |ks| + 1 && b < |ss| && w < |ss[b].writers|
  {
    exists x, n | a <= x < b && 0 <= n < |ss[b].heap.nodes| ::
      Unlinks(ss, ks, w, k, x, n) && DisposeOk(ss[b].writers[w], ss[b].heap, n)
  }

  lemma DisposeStep(s: State, bucket: Bucketing, k: Step, w: nat, n: nat)
    requires Inv(s, bucket) && Enabled(s, k) && w < |s.writers| && !s.writers[w].Rest?
    requires DisposeOk(s.writers[w], s.heap, n)
    ensures var s' := Apply(s, bucket, k);
            w < |s'.writers| && DisposeOk(s'.writers[w], s'.heap, n)
  {
    WritersFrame(s, bucket, k);
    MarksStep(s, bucket, k);
    hide Inv, Apply, Shape;
  }

  lemma UnlinkBegins(s: State, bucket: Bucketing, w: nat, k: Key)
    requires TableOk(s, bucket) && Enabled(s, Write(w))
    requires !Absent(s.heap, k) && Absent(WriteStep(s, bucket, w).heap, k)
    ensures var n, s' := Target(s.writers[w]), WriteStep(s, bucket, w);
            && n.Some? && IsLinked(s.heap, n.value) && s.heap.nodes[n.value].key == k
            && n.value < |s'.heap.nodes| && s'.heap.nodes[n.value].life.Gone?
            && DisposeOk(s'.writers[w], s'.heap, n.value)
  {
    hide HeapOk, Coupled, OrigOk, LockOk, Search;
    var wr := s.writers[w];
    assert HolderOk(s, wr) && WriterFits(s, wr);
    AbsentStep(s, bucket, wr, k);
    NodesStep(s, bucket, wr);
    hide Shape, Absent, NextHeap;
  }

  lemma {:induction false} DisposalStands(ss: seq<State>, ks: seq<Step>, bucket: Bucketing, w: nat, k: Key, a: nat, b: nat)
    requires IsUnderWay(ss, ks, bucket, w, Del(k), a, b)
    ensures |ss| == |ks| + 1 && b < |ss| && w < |ss[b].writers|
    ensures Achieved(ss, ks, w, Del(k), a, b) ==> Disposes(ss, ks, w, k, a, b)
    decreases b
  {
    hide *;
    UnderWayBefore(ss, ks, bucket, w, Del(k), a, b);
    Stands(ss, ks, bucket, w, Del(k), a, b);
    if b == a + 1 {
      Begins(ss, ks, bucket, w, Del(k), a, false);
    } else {
      DisposalStands(ss, ks, bucket, w, k, a, b - 1);
      DisposalStep(ss, ks, bucket, w, k, a, b - 1);
    }
  }

  lemma DisposalStep(ss: seq<State>, ks: seq<Step>, bucket: Bucketing, w: nat, k: Key, a: nat, j: nat)
    requires |ss| == |ks| + 1 && a <= j < |ks| && w < |ss[j].writers| && !ss[j].writers[w].Rest?
    requires w < |ss[j + 1].writers|
    requires Achieved(ss, ks, w, Del(k), a, j) ==> Disposes(ss, ks, w, k, a, j)
    requires IsRun(ss, ks, bucket)
    ensures Achieved(ss, ks, w, Del(k), a, j + 1) ==> Disposes(ss, ks, w, k, a, j + 1)
  {
    RunInvHolds(ss, ks, bucket, j);
    assert Next(ss[j], bucket, ks[j], ss[j + 1]);
    SeenOn(ss, ks, w, Del(k), a, j);
    hide IsRun, Shape, Apply, Enabled, Absent, Inv, TableOk, Achieved;
    if Achieved(ss, ks, w, Del(k), a, j) {
      var x, n :| a <= x < j && 0 <= n < |ss[j].heap.nodes|
                  && Unlinks(ss, ks, w, k, x, n) && DisposeOk(ss[j].writers[w], ss[j].heap, n);
      DisposeStep(ss[j], bucket, ks[j], w, n);
      assert Unlinks(ss, ks, w, k, x, n) && DisposeOk(ss[j + 1].writers[w], ss[j + 1].heap, n);
    } else if ks[j] == Write(w) && Achieves(Del(k), ss[j].heap, ss[j + 1].heap) {
      UnlinkBegins(ss[j], bucket, w, k);
      var n := Target(ss[j].writers[w]).value;
      assert Unlinks(ss, ks, w, k, j, n) && DisposeOk(ss[j + 1].writers[w], ss[j + 1].heap, n);
    }
  }

  // A deregistration that answers 0 has freed the node it unlinked, and its statistics.
  lemma DeregistrationFrees(ss: seq<State>, ks: seq<Step>, bucket: Bucketing, w: nat, k: Key, a: nat, b: nat)
    requires IsOperation(ss, ks, bucket, w, Del(k), a, b) && ss[b].writers[w].res == 0
    ensures exists x, n | a <= x < b && 0 <= n < |ss[b].heap.nodes| ::
              && ks[x] == Write(w) && IsLinked(ss[x].heap, n) && ss[x].heap.nodes[n].key == k
              && ss[b].heap.nodes[n].freed && ss[b].heap.nodes[n].statsFreed
  {
    Stands(ss, ks, bucket, w, Del(k), a, b);
    DisposalStands(ss, ks, bucket, w, k, a, b);
    hide IsRun, Achieved;
    var x, n :| a <= x < b && 0 <= n < |ss[b].heap.nodes|
                && Unlinks(ss, ks, w, k, x, n) && DisposeOk(ss[b].writers[w], ss[b].heap, n);
    assert ks[x] == Write(w) && IsLinked(ss[x].heap, n) && ss[x].heap.nodes[n].key == k;
  }

  // Whatever it answers, it touches no other key.
  lemma OtherKeysStay(ss: seq<State>, ks: seq<Step>, bucket: Bucketing, w: nat, op: Op, a: nat, b: nat, x: nat, k: Key)
    requires IsUnderWay(ss, ks, bucket, w, op, a, b) && a <= x < b && ks[x] == Write(w) && k != op.key
    ensures Absent(ss[x].heap, k) <==> Absent(ss[x + 1].heap, k)
  {
    if x == a {
      assert false;
    }
    Stands(ss, ks, bucket, w, op, a, x);
    RunInvHolds(ss, ks, bucket, x);
    var s := ss[x];
    assert Next(s, bucket, ks[x], ss[x + 1]);
    assert HolderOk(s, s.writers[w]) && WriterFits(s, s.writers[w]);
    AbsentStep(s, bucket, s.writers[w], k);
    hide IsRun, Achieved, Prevented, Absent, Shape, HolderOk, NextHeap;
  }

  // ---------------------------------------------------------------- operations end

  // How many own steps are left at most.
  function StepsLeft(w: Writer): nat
  {
    match w
    case Rest(_) => 0
    case Lock(_) => 14
    case Check(_) => 13
    case Seek(_) => 10
    case Restore(_, _) => 9
    case Unflag(_, _) => 8
    case Remove(_, _) => 7
    case CountDown(_, _) => 6
    case Save(_) => 12
    case Patch(_, _) => 11
    case Flag(_, _) => 10
    case Publish(_, _) => 9
    case CountUp(_) => 6
    case Unlock(_, _) => 5
    case Sync(_) => 4
    case Grace(_, _) => 3
    case FreeStats(_) => 2
    case FreeNode(_) => 1
  }

  lemma OperationEnds(s: State, bucket: Bucketing, w: nat)
    requires Shape(s, bucket) && Enabled(s, Write(w))
    ensures StepsLeft(WriteStep(s, bucket, w).writers[w]) < StepsLeft(s.writers[w])
  {
    hide HeapOk, NextHeap, Search;
  }

  // A grace period waits for open sections only.
  predicate WaitsForOpen(s: State)
  {
    forall w, r :: 0 <= w < |s.writers| && s.writers[w].Grace? && r in s.writers[w].waiting ==> r in OpenReaders(s)
  }

  // Only its own reader closes a section.
  lemma ReadersFrame(s: State, bucket: Bucketing, k: Step, r: nat)
    requires Shape(s, bucket) && Enabled(s, k) && r in OpenReaders(s) && k != Close(r)
    ensures r in OpenReaders(Apply(s, bucket, k))
  {
    hide HeapOk, NextHeap, NextWriter;
  }

  lemma WaitsStep(s: State, bucket: Bucketing, k: Step)
    requires Shape(s, bucket) && Enabled(s, k) && WaitsForOpen(s)
    ensures WaitsForOpen(Apply(s, bucket, k))
  {
    var s' := Apply(s, bucket, k);
    WritersFrame(s, bucket, k);
    forall w, r | 0 <= w < |s'.writers| && s'.writers[w].Grace? && r in s'.writers[w].waiting
      ensures r in OpenReaders(s')
    {
      assert r in OpenReaders(s) && k != Close(r) by {
        hide HeapOk, NextHeap, Search, Apply;
      }
      ReadersFrame(s, bucket, k, r);
    }
  }

  lemma {:induction false} WaitsRun(ss: seq<State>, ks: seq<Step>, bucket: Bucketing, i: nat)
    requires IsRun(ss, ks, bucket) && i < |ss|
    ensures WaitsForOpen(ss[i])
  {
    if i > 0 {
      WaitsRun(ss, ks, bucket, i - 1);
      assert Next(ss[i - 1], bucket, ks[i - 1], ss[i]);
      WaitsStep(ss[i - 1], bucket, ks[i - 1]);
    }
  }

  // And it is never stuck: the writer can step, or it waits for the lock and whoever holds it
  // can step, or it waits for sections and each of their readers can step.
  lemma NobodyIsStuck(ss: seq<State>, ks: seq<Step>, bucket: Bucketing, i: nat, w: nat)
    requires IsRun(ss, ks, bucket) && i < |ss| && w < |ss[i].writers| && !ss[i].writers[w].Rest?
    ensures var s := ss[i];
            || Enabled(s, Write(w))
            || (s.writers[w].Lock? && exists v :: 0 <= v < |s.writers| && InLock(s.writers[v]) && Enabled(s, Write(v)))
            || (s.writers[w].Grace? && s.writers[w].waiting != {}
                && forall r :: r in s.writers[w].waiting ==> Enabled(s, Read(r)) || Enabled(s, Close(r)))
  {
    WaitsRun(ss, ks, bucket, i);
    LockIsHeld(ss, ks, bucket, i);
    GoesOn(ss[i], w);
  }

  lemma GoesOn(s: State, w: nat)
    requires WaitsForOpen(s) && w < |s.writers| && !s.writers[w].Rest?
    requires LockHeld(s)
    ensures || Enabled(s, Write(w))
            || (s.writers[w].Lock? && exists v :: 0 <= v < |s.writers| && InLock(s.writers[v]) && Enabled(s, Write(v)))
            || (s.writers[w].Grace? && s.writers[w].waiting != {}
                && forall r :: r in s.writers[w].waiting ==> Enabled(s, Read(r)) || Enabled(s, Close(r)))
  {
    if s.writers[w].Lock? && s.lock.Some? {
      assert InLock(s.writers[s.lock.value]) && Enabled(s, Write(s.lock.value));
    } else if s.writers[w].Grace? {
      forall r | r in s.writers[w].waiting
        ensures Enabled(s, Read(r)) || Enabled(s, Close(r))
      {
        assert r in OpenReaders(s);
      }
    }
  }

  // Only a writer in the critical section holds the lock.
  predicate LockHeld(s: State)
  {
    s.lock.Some? ==> s.lock.value < |s.writers| && InLock(s.writers[s.lock.value])
  }

  lemma {:induction false} LockIsHeld(ss: seq<State>, ks: seq<Step>, bucket: Bucketing, i: nat)
    requires IsRun(ss, ks, bucket) && i < |ss|
    ensures LockHeld(ss[i])
  {
    if i == 0 {
      assert ss[0].lock == None;
    } else {
      hide *;
      LockIsHeld(ss, ks, bucket, i - 1);
      StepTaken(ss, ks, bucket, i - 1);
      LockMoves(ss[i - 1], bucket, ks[i - 1]);
    }
  }

  lemma StepTaken(ss: seq<State>, ks: seq<Step>, bucket: Bucketing, i: nat)
    requires IsRun(ss, ks, bucket) && i + 1 < |ss|
    ensures i < |ks| && Shape(ss[i], bucket) && LockOk(ss[i]) && Enabled(ss[i], ks[i])
    ensures ss[i + 1] == Apply(ss[i], bucket, ks[i])
  {
    RunInvHolds(ss, ks, bucket, i);
    assert Next(ss[i], bucket, ks[i], ss[i + 1]);
    hide IsRun, HeapOk, LockOk, Apply;
  }

  lemma LockMoves(s: State, bucket: Bucketing, k: Step)
    requires Shape(s, bucket) && LockOk(s) && Enabled(s, k) && LockHeld(s)
    ensures LockHeld(Apply(s, bucket, k))
  {
    WritersFrame(s, bucket, k);
    LockStep(s, bucket, k);
    hide HeapOk, NextHeap, NextWriter;
  }

  // ---------------------------------------------------------------- readers never wait

  // Whatever the writers do, a section can be opened, goes on to its end and can be closed.
  lemma ReadersNeverWait(s: State, r: nat, goal: Goal)
    requires r < |s.readers|
    ensures s.readers[r].Outside? ==> Enabled(s, Open(r, goal))
    ensures s.readers[r].Inside? && !s.readers[r].pc.Ended? ==> Enabled(s, Read(r))
    ensures s.readers[r].Inside? && s.readers[r].pc.Ended? ==> Enabled(s, Close(r))
  {
  }

  // And a lookup takes at most one step for each node there was when it read its bucket's
  // head: it goes to ever older nodes.
  lemma LookupsEnd(h: Heap, bucket: Bucketing, r: Reader)
    requires HeapOk(h, bucket) && r.Inside? && r.goal.Find? && CursorFits(h, r.pc) && !r.pc.Ended?
    ensures var pc' := ReadStep(h, r).pc;
            pc'.Ended? || (pc'.AtNode? && pc'.cur < if r.pc.AtNode? then r.pc.cur else |h.nodes|)
  {
    if r.pc.AtNode? {
      assert LinkOk(h, bucket, r.pc.cur);
    }
  }
}
