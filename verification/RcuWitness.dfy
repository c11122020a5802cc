// Runs in which a registered system call is dispatched to the wrapper and its lookup finds
// nothing: during a registration (src/throttling_api.c:68-76), and after a deregistration
// has overtaken the caller (src/throttling_api.c:117-125).
module RcuWitness {
  import opened Wrappers
  import opened Errno
  import opened RcuHeap
  import opened Rcu
  import opened RcuTheorems
  import opened RcuLookup

  // One more step of writer 0.
  lemma WriteOn(ss: seq<State>, ks: seq<Step>, bucket: Bucketing) returns (ss': seq<State>, ks': seq<Step>)
    requires IsRun(ss, ks, bucket) && |ss| == |ks| + 1 && Enabled(ss[|ks|], Write(0))
    ensures IsRun(ss', ks', bucket) && |ss'| == |ks'| + 1 && ss'[0] == ss[0] && ss <= ss'
    ensures Shape(ss[|ks|], bucket) && ss'[|ks'|] == WriteStep(ss[|ks|], bucket, 0)
  {
    StepsAreDefined(ss, ks, bucket, Write(0));
    ss', ks' := ss + [Apply(ss[|ks|], bucket, Write(0))], ks + [Write(0)];
  }

  // Writer 0 before step w, holding the lock.
  function At(s: State, w: Writer): State
    requires |s.writers| >= 1
  {
    s.(writers := s.writers[0 := w], lock := Some(0))
  }

  // An operation begins, takes the lock and makes its check.
  lemma Start(ss: seq<State>, ks: seq<Step>, bucket: Bucketing, op: Op) returns (ss': seq<State>, ks': seq<Step>)
    requires IsRun(ss, ks, bucket) && |ss| == |ks| + 1 && Enabled(ss[|ks|], Begin(0, op)) && ss[|ks|].lock == None
    ensures IsRun(ss', ks', bucket) && |ss'| == |ks'| + 1 && ss'[0] == ss[0] && ss <= ss'
    ensures Shape(ss[|ks|], bucket) && ss'[|ks'|] == At(ss[|ks|], CheckStep(ss[|ks|], bucket, op))
  {
    var s := ss[|ks|];
    StepsAreDefined(ss, ks, bucket, Begin(0, op));
    ss', ks' := ss + [Apply(s, bucket, Begin(0, op))], ks + [Begin(0, op)];
    hide IsRun, Search;
    ss', ks' := WriteOn(ss', ks', bucket);
    assert ss'[|ks'|] == At(s, Check(op));
    ss', ks' := WriteOn(ss', ks', bucket);
    assert CheckStep(At(s, Check(op)), bucket, op) == CheckStep(s, bucket, op);
  }

  // The state once the wrapper is in the table.
  function Patched(s: State): State
    requires |s.writers| >= 1 && |s.pristine| >= 1
  {
    At(s, Flag(0, s.pristine[0])).(table := s.pristine[0 := Wrapper])
  }

  // A registration of number 0 up to the table write.
  lemma PatchTable(s: State, bucket: Bucketing) returns (ss: seq<State>, ks: seq<Step>)
    requires Init(s) && Proper(bucket) && |s.writers| >= 1 && |s.pristine| >= 1
    ensures IsRun(ss, ks, bucket) && |ss| == |ks| + 1 && ss[0] == s && ss[|ks|] == Patched(s)
  {
    ss, ks := [s], [];
    assert IsRun(ss, ks, bucket);
    ss, ks := Start(ss, ks, bucket, Add(Sys(0)));
    hide IsRun, Search;
    ss, ks := WriteOn(ss, ks, bucket);
    assert ss[|ks|] == At(s, Patch(0, s.pristine[0]));
    ss, ks := WriteOn(ss, ks, bucket);
  }

  // The state once the number is registered and the lock free again.
  function Registered(s: State, bucket: Bucketing): State
    requires |s.writers| >= 1 && |s.pristine| >= 1 && |s.flags| >= 1
  {
    s.(writers := s.writers[0 := Rest(OK)], lock := None, table := s.pristine[0 := Wrapper],
       flags := s.flags[0 := true], heap := OneNode(s, bucket), sysLen := 1)
  }

  // The lists with one node, for number 0.
  function OneNode(s: State, bucket: Bucketing): Heap
    requires |s.pristine| >= 1
  {
    Heap([Node(Sys(0), s.pristine[0], None, None, Linked, 0, false, false)], map[bucket(Sys(0)) := 0], 1)
  }

  lemma Register(s: State, bucket: Bucketing) returns (ss: seq<State>, ks: seq<Step>)
    requires Init(s) && Proper(bucket) && |s.writers| >= 1 && |s.pristine| >= 1
    ensures IsRun(ss, ks, bucket) && |ss| == |ks| + 1 && ss[0] == s && ss[|ks|] == Registered(s, bucket)
  {
    hide IsRun, Search;
    ss, ks := PatchTable(s, bucket);
    ss, ks := WriteOn(ss, ks, bucket);
    var s1 := Patched(s).(flags := s.flags[0 := true]);
    assert ss[|ks|] == At(s1, Publish(Sys(0), s.pristine[0]));
    ss, ks := WriteOn(ss, ks, bucket);
    assert ss[|ks|] == At(s1, CountUp(Sys(0))).(heap := OneNode(s, bucket));
    ss, ks := WriteOn(ss, ks, bucket);
    assert ss[|ks|] == At(s1, Unlock(OK, None)).(heap := OneNode(s, bucket), sysLen := 1);
    ss, ks := WriteOn(ss, ks, bucket);
  }

  // A deregistration of number 0 from there, up to the unlink.
  lemma Deregister(s: State, ss: seq<State>, ks: seq<Step>, bucket: Bucketing) returns (ss': seq<State>, ks': seq<Step>)
    requires IsRun(ss, ks, bucket) && |ss| == |ks| + 1 && Init(s) && ss[0] == s
    requires |s.writers| >= 1 && |s.pristine| >= 1 && ss[|ks|] == Registered(s, bucket)
    ensures IsRun(ss', ks', bucket) && |ss'| == |ks'| + 1 && ss'[0] == s && ss <= ss'
    ensures var t := ss'[|ks'|];
            |t.writers| >= 1 && t.writers[0] == CountDown(Sys(0), 0) && t.readers == s.readers && bucket(Sys(0)) !in t.heap.heads
  {
    hide IsRun;
    ss', ks' := Start(ss, ks, bucket, Del(Sys(0)));
    var t := Registered(s, bucket);
    assert ss'[|ks'|] == At(t, Seek(0));
    ss', ks' := WriteOn(ss', ks', bucket);
    assert ss'[|ks'|] == At(t, Restore(0, 0));
    ss', ks' := WriteOn(ss', ks', bucket);
    assert ss'[|ks'|] == At(t, Unflag(0, 0)).(table := s.pristine);
    ss', ks' := WriteOn(ss', ks', bucket);
    assert ss'[|ks'|] == At(t, Remove(Sys(0), 0)).(table := s.pristine, flags := s.flags);
    ss', ks' := WriteOn(ss', ks', bucket);
  }

  // A lookup of number 0 opened now finds its bucket empty.
  lemma Miss(ss: seq<State>, ks: seq<Step>, bucket: Bucketing) returns (ss': seq<State>, ks': seq<Step>)
    requires IsRun(ss, ks, bucket) && |ss| == |ks| + 1 && |ss[|ks|].readers| >= 1 && ss[|ks|].readers[0].Outside?
    requires bucket(Sys(0)) !in ss[|ks|].heap.heads && Proper(bucket)
    ensures |ks'| == |ks| + 2 && |ss'| == |ks| + 3 && ss <= ss'
    ensures IsSection(ss', ks', bucket, 0, Find(Sys(0)), |ks| + 1, |ks| + 2)
    ensures ss'[|ks| + 2].readers[0].pc.Ended? && ss'[|ks| + 2].readers[0].call == None
    ensures forall x :: |ks| <= x <= |ks| + 2 ==> ss'[x].table == ss[|ks|].table && ss'[x].heap == ss[|ks|].heap
  {
    var s := ss[|ks|];
    var k := Open(0, Find(Sys(0)));
    StepsAreDefined(ss, ks, bucket, k);
    OpenStarts(s, bucket, 0, Find(Sys(0)));
    var s1 := Apply(s, bucket, k);
    var ss1, ks1 := ss + [s1], ks + [k];
    StepsAreDefined(ss1, ks1, bucket, Read(0));
    var s2 := Apply(s1, bucket, Read(0));
    ss', ks' := ss1 + [s2], ks1 + [Read(0)];
    assert s2.readers[0] == s1.readers[0].(pc := Ended(None, []));
  }

  // While a registration is between its two writes, a call dispatched to the wrapper can
  // look its number up and find nothing.
  lemma GapMisses(s: State, bucket: Bucketing) returns (ss: seq<State>, ks: seq<Step>, a: nat, b: nat)
    requires Init(s) && Proper(bucket) && |s.writers| >= 1 && |s.readers| >= 1 && |s.pristine| >= 1
    ensures ss != [] && ss[0] == s && a <= b < |ss| && IsSection(ss, ks, bucket, 0, Find(Sys(0)), a, b)
    ensures ss[b].readers[0].pc.Ended? && ss[b].readers[0].call == None
    ensures forall x :: a <= x <= b ==>
              |ss[x].table| >= 1 && ss[x].table[0] == Wrapper && Absent(ss[x].heap, Sys(0))
  {
    ss, ks := PatchTable(s, bucket);
    a, b := |ks| + 1, |ks| + 2;
    hide IsRun, IsSection;
    ss, ks := Miss(ss, ks, bucket);
  }

  // A call dispatched while its number was registered and the lock free can be overtaken by
  // the deregistration, look its number up and find nothing.
  lemma UnlinkMisses(s: State, bucket: Bucketing) returns (ss: seq<State>, ks: seq<Step>, d: nat, a: nat, b: nat)
    requires Init(s) && Proper(bucket) && |s.writers| >= 1 && |s.readers| >= 1 && |s.pristine| >= 1
    ensures ss != [] && ss[0] == s && d < a <= b < |ss| && IsSection(ss, ks, bucket, 0, Find(Sys(0)), a, b)
    ensures |ss[d].table| >= 1 && ss[d].table[0] == Wrapper && ss[d].lock == None && !Absent(ss[d].heap, Sys(0))
    ensures ss[b].readers[0].pc.Ended? && ss[b].readers[0].call == None
  {
    hide IsRun, IsSection;
    ss, ks := Register(s, bucket);
    d := |ks|;
    assert IsLinked(ss[d].heap, 0);
    ss, ks := Deregister(s, ss, ks, bucket);
    a, b := |ks| + 1, |ks| + 2;
    ss, ks := Miss(ss, ks, bucket);
  }

  // ---------------------------------------------------------------- a registration that is seen

  // The lists with one node, for a user id.
  function UidNode(bucket: Bucketing, u: nat): Heap
  {
    Heap([Node(Uid(u), NoEntry, None, None, Linked, 0, false, false)], map[bucket(Uid(u)) := 0], 1)
  }

  lemma RegisterUid(s: State, bucket: Bucketing, u: nat) returns (ss: seq<State>, ks: seq<Step>)
    requires Init(s) && Proper(bucket) && |s.writers| >= 1
    ensures IsRun(ss, ks, bucket) && |ss| == |ks| + 1 && ss[0] == s
    ensures ss[|ks|] == s.(writers := s.writers[0 := Rest(OK)], lock := None, heap := UidNode(bucket, u), uidLen := 1)
  {
    ss, ks := [s], [];
    assert IsRun(ss, ks, bucket);
    ss, ks := Start(ss, ks, bucket, Add(Uid(u)));
    hide IsRun, Search;
    assert ss[|ks|] == At(s, Publish(Uid(u), NoEntry));
    ss, ks := WriteOn(ss, ks, bucket);
    assert ss[|ks|] == At(s, CountUp(Uid(u))).(heap := UidNode(bucket, u));
    ss, ks := WriteOn(ss, ks, bucket);
    assert ss[|ks|] == At(s, Unlock(OK, None)).(heap := UidNode(bucket, u), uidLen := 1);
    ss, ks := WriteOn(ss, ks, bucket);
  }

  // One more step of reader 0.
  lemma ReadOn(ss: seq<State>, ks: seq<Step>, bucket: Bucketing, k: Step) returns (ss': seq<State>, ks': seq<Step>)
    requires IsRun(ss, ks, bucket) && |ss| == |ks| + 1 && Enabled(ss[|ks|], k)
    ensures IsRun(ss', ks', bucket) && |ss'| == |ks'| + 1 && ss'[0] == ss[0] && ss <= ss'
    ensures |ks'| == |ks| + 1 && Shape(ss[|ks|], bucket) && ss'[|ks'|] == Apply(ss[|ks|], bucket, k)
  {
    StepsAreDefined(ss, ks, bucket, k);
    ss', ks' := ss + [Apply(ss[|ks|], bucket, k)], ks + [k];
  }

  // A user id is registered, with the lock free again and counted, and a lookup finds it.
  lemma RegisteredIsFound(s: State, bucket: Bucketing, u: nat) returns (ss: seq<State>, ks: seq<Step>, a: nat)
    requires Init(s) && Proper(bucket) && |s.writers| >= 1 && |s.readers| >= 1
    ensures IsRun(ss, ks, bucket) && |ss| == |ks| + 1 && ss[0] == s && a < |ks|
    ensures Absent(s.heap, Uid(u)) && s.uidLen == 0
    ensures ss[a].lock == None && !Absent(ss[a].heap, Uid(u)) && ss[a].uidLen == 1 && ks[a] == Open(0, Find(Uid(u)))
    ensures |ss[|ks|].readers| >= 1 && ss[|ks|].readers[0] == Inside(1, Find(Uid(u)), Ended(Some(0), []), Some(NoEntry))
  {
    ss, ks := RegisterUid(s, bucket, u);
    a := |ks|;
    assert IsLinked(ss[a].heap, 0);
    hide IsRun, Search;
    ss, ks := ReadOn(ss, ks, bucket, Open(0, Find(Uid(u))));
    ss, ks := ReadOn(ss, ks, bucket, Read(0));
    ss, ks := ReadOn(ss, ks, bucket, Read(0));
  }
}
