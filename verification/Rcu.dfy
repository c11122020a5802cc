// The three registries and the patched syscall table under any interleaving of lock-free
// readers and writers that hold one lock (src/throttling_api.c:26-296, :436-604, :709-718).
// Every access to a shared location is one step; synchronize_rcu waits for the read
// sections open when it is called. Two kinds of steps stand for several accesses: a search
// under the lock, which nobody else's step disturbs (RcuSafety.OthersKeepLists), and a linking
// or unlinking, of whose writes readers can see one (RcuHeap.LinkIsOneWrite, UnlinkIsOneWrite).
module Rcu {
  import opened Wrappers
  import opened Errno
  import opened RcuHeap

  datatype Goal =
    | Find(key: Key)               // check_* and the lookup of the wrapper
    | All(table: nat, cap: nat)    // get_all_uids, get_all_progs

  // `seen` lists the nodes an enumeration has copied.
  datatype ReadPc =
    | AtHead(slot: nat, seen: seq<nat>)
    | AtNode(slot: nat, cur: nat, seen: seq<nat>)
    | Ended(hit: Option<nat>, seen: seq<nat>)

  // After the section, only the copied function pointer is kept.
  datatype Reader =
    | Outside(goal: Goal, call: Option<Entry>)
    | Inside(since: nat, goal: Goal, pc: ReadPc, call: Option<Entry>)

  // The scan of the flags by get_all_syscalls (:522-530): the next number, the limit and what
  // was copied. It holds no node, so no grace period has to wait for its section.
  datatype Scan = Scanned(numbers: seq<nat>) | Scanning(nr: nat, cap: int, numbers: seq<nat>)

  datatype Op = Add(key: Key) | Del(key: Key)

  datatype Writer =
    | Rest(res: int)
    | Lock(op: Op)
    | Check(op: Op)
    | Save(nr: nat)                            // :67
    | Patch(nr: nat, orig: Entry)              // :68
    | Flag(nr: nat, orig: Entry)               // :71
    | Publish(key: Key, orig: Entry)           // :76, :170, :255
    | CountUp(key: Key)                        // :77, :171, :256
    | Seek(nr: nat)                            // :99-112
    | Restore(nr: nat, node: nat)              // :117
    | Unflag(nr: nat, node: nat)               // :122
    | Remove(key: Key, node: nat)              // :125, :191, :278
    | CountDown(key: Key, node: nat)           // :127, :192, :279
    | Unlock(res: int, victim: Option<nat>)
    | Sync(node: nat)
    | Grace(node: nat, waiting: set<nat>)
    | FreeStats(node: nat)                     // :133; the other two tables have none to free
    | FreeNode(node: nat)

  // `pristine` is the syscall table before the module touched it.
  datatype State = State(
    heap: Heap, readers: seq<Reader>, writers: seq<Writer>, scans: seq<Scan>, lock: Option<nat>,
    table: seq<Entry>, pristine: seq<Entry>, flags: seq<bool>,
    sysLen: int, uidLen: int, progLen: int)

  datatype Step =
    | Begin(w: nat, op: Op)
    | Write(w: nat)
    | Open(r: nat, goal: Goal)
    | Read(r: nat)
    | Close(r: nat)
    | StartScan(c: nat, max: int)
    | Scan(c: nat)

  predicate Init(s: State)
  {
    && s.heap == Heap([], map[], 0)
    && (forall r :: 0 <= r < |s.readers| ==> s.readers[r].Outside? && s.readers[r].call == None)
    && (forall w :: 0 <= w < |s.writers| ==> s.writers[w] == Rest(OK))
    && (forall c :: 0 <= c < |s.scans| ==> s.scans[c] == Scanned([]))
    && s.lock == None && s.table == s.pristine && |s.flags| == |s.pristine|
    && (forall n :: 0 <= n < |s.flags| ==> !s.flags[n] && s.pristine[n].Original?)
    && s.sysLen == s.uidLen == s.progLen == 0
  }

  // The search loops stop at the first node with the key.
  function Search(h: Heap, bucket: Bucketing, from: Option<nat>, k: Key): Option<nat>
    requires LinksOk(h, bucket)
    requires from.Some? ==> from.value < |h.nodes|
    decreases if from.Some? then from.value + 1 else 0
  {
    if from.None? then None
    else if h.nodes[from.value].key == k then from
    else
      assert LinkOk(h, bucket, from.value);
      Search(h, bucket, h.nodes[from.value].next, k)
  }

  predicate InLock(w: Writer)
  {
    !(w.Rest? || w.Lock? || w.Sync? || w.Grace? || w.FreeStats? || w.FreeNode?)
  }

  // Numbers are range-checked by the command layer.
  predicate InRange(s: State, k: Key)
  {
    k.Sys? ==> k.nr < |s.flags|
  }

  // The node a writer has unlinked, or is about to.
  function Target(w: Writer): Option<nat>
  {
    match w
    case Restore(_, n) => Some(n)
    case Unflag(_, n) => Some(n)
    case Remove(_, n) => Some(n)
    case CountDown(_, n) => Some(n)
    case Unlock(_, v) => v
    case Sync(n) => Some(n)
    case Grace(n, _) => Some(n)
    case FreeStats(n) => Some(n)
    case FreeNode(n) => Some(n)
    case _ => None
  }

  predicate WriterFits(s: State, w: Writer)
  {
    && (w.Lock? || w.Check? ==> InRange(s, w.op.key))
    && (w.Save? || w.Patch? || w.Flag? || w.Seek? || w.Restore? || w.Unflag? ==> w.nr < |s.flags|)
    && (Target(w).Some? ==> Target(w).value < |s.heap.nodes|)
  }

  // What the accesses below need to be defined; part of the invariant.
  predicate Shape(s: State, bucket: Bucketing)
  {
    && HeapOk(s.heap, bucket)
    && |s.table| == |s.flags| == |s.pristine|
    && (forall w :: 0 <= w < |s.writers| ==> WriterFits(s, s.writers[w]))
    && (forall w :: 0 <= w < |s.writers| && s.writers[w].Remove? ==> IsLinked(s.heap, s.writers[w].node))
    && (forall r :: 0 <= r < |s.readers| && s.readers[r].Inside? ==> CursorFits(s.heap, s.readers[r].pc))
  }

  predicate CursorFits(h: Heap, pc: ReadPc)
  {
    match pc
    case AtHead(_, _) => true
    case AtNode(_, cur, _) => cur < |h.nodes|
    case Ended(hit, _) => hit.Some? ==> hit.value < |h.nodes|
  }

  predicate Enabled(s: State, k: Step)
  {
    match k
    case Begin(w, op) => w < |s.writers| && s.writers[w].Rest? && InRange(s, op.key)
    case Write(w) =>
      && w < |s.writers| && !s.writers[w].Rest?
      && (s.writers[w].Lock? ==> s.lock == None)
      && (s.writers[w].Grace? ==> s.writers[w].waiting == {})
    case Open(r, _) => r < |s.readers| && s.readers[r].Outside?
    case Read(r) => r < |s.readers| && s.readers[r].Inside? && !s.readers[r].pc.Ended?
    case Close(r) => r < |s.readers| && s.readers[r].Inside? && s.readers[r].pc.Ended?
    case StartScan(c, _) => c < |s.scans| && s.scans[c].Scanned?
    case Scan(c) => c < |s.scans| && s.scans[c].Scanning?
  }

  // ---------------------------------------------------------------- readers

  function SlotOf(bucket: Bucketing, g: Goal): nat
  {
    match g
    case Find(k) => bucket(k).slot
    case All(_, _) => 0
  }

  function GoalTable(g: Goal): nat
  {
    match g
    case Find(k) => TableOf(k)
    case All(t, _) => t
  }

  // The end of a bucket: a lookup has failed, an enumeration goes to the next bucket.
  function NextSlot(g: Goal, slot: nat, seen: seq<nat>): ReadPc
  {
    if g.All? && slot + 1 < SLOTS then AtHead(slot + 1, seen) else Ended(None, seen)
  }

  function Onward(g: Goal, slot: nat, next: Option<nat>, seen: seq<nat>): ReadPc
  {
    if next.Some? then AtNode(slot, next.value, seen) else NextSlot(g, slot, seen)
  }

  function ReadPcStep(h: Heap, g: Goal, pc: ReadPc): ReadPc
    requires CursorFits(h, pc)
  {
    match pc
    case AtHead(slot, seen) => Onward(g, slot, Head(h, Bucket(GoalTable(g), slot)), seen)
    case AtNode(slot, cur, seen) =>
      if g.Find? then
        if h.nodes[cur].key == g.key then Ended(Some(cur), seen)
        else Onward(g, slot, h.nodes[cur].next, seen)
      else if |seen| < g.cap then Onward(g, slot, h.nodes[cur].next, seen + [cur])
      else Ended(None, seen)
    case Ended(_, _) => pc
  }

  function ReadStep(h: Heap, r: Reader): Reader
    requires r.Inside? && CursorFits(h, r.pc)
  {
    var pc := ReadPcStep(h, r.goal, r.pc);
    r.(pc := pc,
       call := if pc.Ended? && pc.hit.Some? && pc.hit.value < |h.nodes| then Some(h.nodes[pc.hit.value].orig) else r.call)
  }

  // The limit is the length read at the start, if that is smaller (:512).
  function ScanFrom(s: State, max: int): Scan
  {
    Scanning(0, if s.sysLen < max then s.sysLen else max, [])
  }

  function ScanStep(flags: seq<bool>, c: Scan): Scan
    requires c.Scanning?
  {
    if c.nr >= |flags| || |c.numbers| >= c.cap then Scanned(c.numbers)
    else Scanning(c.nr + 1, c.cap, if flags[c.nr] then c.numbers + [c.nr] else c.numbers)
  }

  // ---------------------------------------------------------------- writers

  function Found(s: State, bucket: Bucketing, k: Key): Option<nat>
    requires Shape(s, bucket)
  {
    Search(s.heap, bucket, Head(s.heap, bucket(k)), k)
  }

  function CheckStep(s: State, bucket: Bucketing, op: Op): Writer
    requires Shape(s, bucket) && InRange(s, op.key)
  {
    match op
    case Add(Sys(nr)) => if s.flags[nr] then Unlock(EEXIST, None) else Save(nr)
    case Add(k) => if Found(s, bucket, k).Some? then Unlock(EEXIST, None) else Publish(k, NoEntry)
    case Del(Sys(nr)) => if s.flags[nr] then Seek(nr) else Unlock(ENOENT, None)
    case Del(k) =>
      var n := Found(s, bucket, k);
      if n.Some? then Remove(k, n.value) else Unlock(ENOENT, None)
  }

  function OpenReaders(s: State): set<nat>
  {
    set r: nat | r < |s.readers| && s.readers[r].Inside?
  }

  function NextWriter(s: State, bucket: Bucketing, w: Writer): Writer
    requires Shape(s, bucket) && WriterFits(s, w)
  {
    match w
    case Rest(_) => w
    case Lock(op) => Check(op)
    case Check(op) => CheckStep(s, bucket, op)
    case Save(nr) => Patch(nr, s.table[nr])
    case Patch(nr, orig) => Flag(nr, orig)
    case Flag(nr, orig) => Publish(Sys(nr), orig)
    case Publish(key, _) => CountUp(key)
    case CountUp(_) => Unlock(OK, None)
    case Seek(nr) =>
      var n := Found(s, bucket, Sys(nr));
      if n.Some? then Restore(nr, n.value) else Unlock(EFAULT, None)
    case Restore(nr, node) => Unflag(nr, node)
    case Unflag(nr, node) => Remove(Sys(nr), node)
    case Remove(key, node) => CountDown(key, node)
    case CountDown(_, node) => Unlock(OK, Some(node))
    case Unlock(res, victim) => if victim.Some? then Sync(victim.value) else Rest(res)
    case Sync(node) => Grace(node, OpenReaders(s))
    case Grace(node, _) => FreeStats(node)
    case FreeStats(node) => FreeNode(node)
    case FreeNode(_) => Rest(OK)
  }

  function NextHeap(s: State, bucket: Bucketing, w: Writer): Heap
    requires Shape(s, bucket) && WriterFits(s, w)
    requires w.Remove? ==> IsLinked(s.heap, w.node)
  {
    var h := s.heap;
    match w
    case Publish(key, orig) => Link(h, bucket, key, orig)
    case Remove(_, node) =>
      assert LinkOk(h, bucket, node) && PprevOk(h, bucket, node);
      Unlink(h, bucket, node)
    case FreeStats(node) => h.(nodes := h.nodes[node := h.nodes[node].(statsFreed := true)])
    case FreeNode(node) => h.(nodes := h.nodes[node := h.nodes[node].(freed := true)])
    case _ => h
  }

  // The counter change of table t.
  function LenChange(w: Writer, t: nat): int
  {
    if w.CountUp? && TableOf(w.key) == t then 1
    else if w.CountDown? && TableOf(w.key) == t then -1
    else 0
  }

  function WriteStep(s: State, bucket: Bucketing, i: nat): State
    requires Shape(s, bucket) && Enabled(s, Write(i))
  {
    var w := s.writers[i];
    s.(writers := s.writers[i := NextWriter(s, bucket, w)],
       heap := NextHeap(s, bucket, w),
       lock := if w.Lock? then Some(i) else if w.Unlock? then None else s.lock,
       table := if w.Patch? then s.table[w.nr := Wrapper]
                else if w.Restore? then s.table[w.nr := s.heap.nodes[w.node].orig]
                else s.table,
       flags := if w.Flag? then s.flags[w.nr := true]
                else if w.Unflag? then s.flags[w.nr := false]
                else s.flags,
       sysLen := s.sysLen + LenChange(w, 0),
       uidLen := s.uidLen + LenChange(w, 1),
       progLen := s.progLen + LenChange(w, 2))
  }

  // A section that closes no longer holds up any grace period.
  function Released(ws: seq<Writer>, r: nat): (res: seq<Writer>)
    ensures |res| == |ws|
    ensures forall i :: 0 <= i < |ws| ==>
              res[i] == if ws[i].Grace? then ws[i].(waiting := ws[i].waiting - {r}) else ws[i]
  {
    seq(|ws|, i requires 0 <= i < |ws| =>
      if ws[i].Grace? then ws[i].(waiting := ws[i].waiting - {r}) else ws[i])
  }

  function Apply(s: State, bucket: Bucketing, k: Step): State
    requires Shape(s, bucket) && Enabled(s, k)
  {
    match k
    case Begin(w, op) => s.(writers := s.writers[w := Lock(op)])
    case Write(w) => WriteStep(s, bucket, w)
    case Open(r, goal) =>
      s.(readers := s.readers[r := Inside(s.heap.clock, goal, AtHead(SlotOf(bucket, goal), []), None)])
    case Read(r) => s.(readers := s.readers[r := ReadStep(s.heap, s.readers[r])])
    case Close(r) =>
      s.(readers := s.readers[r := Outside(s.readers[r].goal, s.readers[r].call)], writers := Released(s.writers, r))
    case StartScan(c, max) => s.(scans := s.scans[c := ScanFrom(s, max)])
    case Scan(c) => s.(scans := s.scans[c := ScanStep(s.flags, s.scans[c])])
  }
}
