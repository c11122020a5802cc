// The peak-delay record of a system call under concurrent callers
// (src/throttling_api.c:643-667): the test is made outside stats_lock, the three writes
// inside. With `recheck` the test is made again under the lock, which the code does not do.
module PeakDelay {
  import opened Wrappers
  import MonitoredSyscalls

  type Peak = MonitoredSyscalls.Peak

  datatype Pc = Test | Lock | Recheck | SetDelay | SetUid | SetName | Unlock | Done

  datatype Caller = Caller(mine: Peak, pc: Pc)

  datatype State = State(callers: seq<Caller>, lock: Option<nat>, stats: Peak, recheck: bool)

  predicate Init(s: State)
  {
    && (forall c :: 0 <= c < |s.callers| ==> s.callers[c].pc == Test)
    && s.lock == None && s.stats.delay == 0
  }

  predicate Enabled(s: State, c: nat)
  {
    c < |s.callers| && s.callers[c].pc != Done && (s.callers[c].pc == Lock ==> s.lock == None)
  }

  function NextPc(s: State, k: Caller): Pc
  {
    match k.pc
    case Test => if s.stats.delay < k.mine.delay then Lock else Done
    case Lock => if s.recheck then Recheck else SetDelay
    case Recheck => if s.stats.delay < k.mine.delay then SetDelay else Unlock
    case SetDelay => SetUid
    case SetUid => SetName
    case SetName => Unlock
    case Unlock => Done
    case Done => Done
  }

  function Apply(s: State, c: nat): State
    requires Enabled(s, c)
  {
    var k := s.callers[c];
    s.(callers := s.callers[c := k.(pc := NextPc(s, k))],
       lock := if k.pc == Lock then Some(c) else if k.pc == Unlock then None else s.lock,
       stats := if k.pc == SetDelay then s.stats.(delay := k.mine.delay)
                else if k.pc == SetUid then s.stats.(uid := k.mine.uid)
                else if k.pc == SetName then s.stats.(name := k.mine.name)
                else s.stats)
  }

  ghost predicate IsRun(ss: seq<State>, cs: seq<nat>)
  {
    && |ss| == |cs| + 1 && Init(ss[0])
    && forall i {:trigger cs[i]} :: 0 <= i < |cs| ==> Enabled(ss[i], cs[i]) && ss[i + 1] == Apply(ss[i], cs[i])
  }

  // ---------------------------------------------------------------- whose record it is

  predicate InLock(pc: Pc)
  {
    pc == Recheck || pc == SetDelay || pc == SetUid || pc == SetName || pc == Unlock
  }

  predicate LockOk(s: State)
  {
    forall c :: 0 <= c < |s.callers| ==> (InLock(s.callers[c].pc) <==> s.lock == Some(c))
  }

  // The record is the initial one or that of one caller.
  ghost predicate FromOne(s: State, first: Peak)
  {
    s.stats == first || exists c :: 0 <= c < |s.callers| && s.callers[c].mine == s.stats
  }

  ghost predicate RecordOk(s: State, first: Peak)
  {
    && LockOk(s)
    && if s.lock.Some? && s.lock.value < |s.callers| && s.callers[s.lock.value].pc == SetUid
       then s.stats.delay == s.callers[s.lock.value].mine.delay
       else if s.lock.Some? && s.lock.value < |s.callers| && s.callers[s.lock.value].pc == SetName
       then s.stats.delay == s.callers[s.lock.value].mine.delay && s.stats.uid == s.callers[s.lock.value].mine.uid
       else FromOne(s, first)
  }

  lemma RecordStep(s: State, c: nat, first: Peak)
    requires RecordOk(s, first) && Enabled(s, c)
    ensures RecordOk(Apply(s, c), first)
  {
    var t := Apply(s, c);
    assert forall d :: 0 <= d < |s.callers| ==> t.callers[d].mine == s.callers[d].mine;
    if s.callers[c].pc == SetName {
      assert t.callers[c].mine == t.stats;
    }
  }

  // Whenever stats_lock is free, the delay, the user and the name are one caller's.
  lemma {:induction false} OneCallersRecord(ss: seq<State>, cs: seq<nat>, i: nat)
    requires IsRun(ss, cs) && i < |ss|
    ensures RecordOk(ss[i], ss[0].stats)
    ensures ss[i].lock == None ==> FromOne(ss[i], ss[0].stats)
  {
    if i > 0 {
      OneCallersRecord(ss, cs, i - 1);
      assert ss[i] == Apply(ss[i - 1], cs[i - 1]);
      RecordStep(ss[i - 1], cs[i - 1], ss[0].stats);
    }
  }

  // ---------------------------------------------------------------- when it is the maximum

  // Past the test, not yet recorded.
  predicate Pending(pc: Pc)
  {
    pc == Lock || pc == Recheck || pc == SetDelay
  }

  predicate Recorded(pc: Pc)
  {
    pc == SetUid || pc == SetName || pc == Unlock || pc == Done
  }

  // A caller about to write has the longer delay; a caller that is through has not.
  predicate PeakOk(s: State)
  {
    && LockOk(s)
    && (forall c :: 0 <= c < |s.callers| && Recorded(s.callers[c].pc) ==> s.callers[c].mine.delay <= s.stats.delay)
    && (forall c :: 0 <= c < |s.callers| && (s.callers[c].pc == SetDelay || (!s.recheck && Pending(s.callers[c].pc))) ==>
          s.stats.delay < s.callers[c].mine.delay)
    && (!s.recheck ==>
          forall c, d :: 0 <= c < d < |s.callers| ==> !(Pending(s.callers[c].pc) && Pending(s.callers[d].pc)))
  }

  // No caller tests while another is past its test and has not written.
  predicate TestsAlone(s: State, c: nat)
    requires c < |s.callers|
  {
    s.callers[c].pc == Test ==>
      forall d :: 0 <= d < |s.callers| && d != c ==> !Pending(s.callers[d].pc)
  }

  lemma PeakStep(s: State, c: nat)
    requires PeakOk(s) && Enabled(s, c) && (s.recheck || TestsAlone(s, c))
    ensures PeakOk(Apply(s, c)) && Apply(s, c).stats.delay >= s.stats.delay
  {
  }

  ghost predicate Atomic(ss: seq<State>, cs: seq<nat>)
    requires IsRun(ss, cs)
  {
    forall i {:trigger cs[i]} :: 0 <= i < |cs| ==> TestsAlone(ss[i], cs[i])
  }

  // If test and write are one step, or the test is repeated under the lock, the record only
  // grows, and in the end it is the longest delay of all callers.
  lemma {:induction false} PeakIsMaximum(ss: seq<State>, cs: seq<nat>, i: nat)
    requires IsRun(ss, cs) && i < |ss|
    requires ss[0].recheck || Atomic(ss, cs)
    ensures PeakOk(ss[i]) && ss[i].recheck == ss[0].recheck
    ensures i > 0 ==> ss[i].stats.delay >= ss[i - 1].stats.delay
    ensures AllDone(ss[i]) ==> HoldsMaximum(ss[i])
  {
    if i > 0 {
      PeakIsMaximum(ss, cs, i - 1);
      assert ss[i] == Apply(ss[i - 1], cs[i - 1]);
      PeakStep(ss[i - 1], cs[i - 1]);
    }
  }

  // Some run leads from an initial state to s.
  ghost predicate Leads(first: State, s: State)
  {
    exists ss: seq<State>, cs: seq<nat> :: IsRun(ss, cs) && ss[0] == first && ss[|cs|] == s
  }

  lemma LeadsOn(first: State, s: State, c: nat)
    requires Leads(first, s) && Enabled(s, c)
    ensures Leads(first, Apply(s, c))
  {
    var ss: seq<State>, cs: seq<nat> :| IsRun(ss, cs) && ss[0] == first && ss[|cs|] == s;
    var ss', cs' := ss + [Apply(s, c)], cs + [c];
    forall i {:trigger cs'[i]} | 0 <= i < |cs'|
      ensures Enabled(ss'[i], cs'[i]) && ss'[i + 1] == Apply(ss'[i], cs'[i])
    {
      assert i < |cs| ==> cs'[i] == cs[i];
    }
    assert IsRun(ss', cs') && ss'[|cs'|] == Apply(s, c);
  }

  // From the lock on, a caller writes its record whatever it holds by then.
  lemma WriteThrough(first: State, s: State, c: nat) returns (t: State)
    requires Leads(first, s) && !s.recheck && s.lock == None && c < |s.callers| && s.callers[c].pc == Lock
    ensures t == s.(callers := s.callers[c := s.callers[c].(pc := Done)], stats := s.callers[c].mine)
    ensures Leads(first, t)
  {
    t := s;
    var k := s.callers[c];
    LeadsOn(first, t, c);
    t := Apply(t, c);
    LeadsOn(first, t, c);
    t := Apply(t, c);
    LeadsOn(first, t, c);
    t := Apply(t, c);
    LeadsOn(first, t, c);
    t := Apply(t, c);
    LeadsOn(first, t, c);
    t := Apply(t, c);
    assert t.callers == s.callers[c := k.(pc := Done)];
  }

  predicate AllDone(s: State)
  {
    forall c :: 0 <= c < |s.callers| ==> s.callers[c].pc == Done
  }

  predicate HoldsMaximum(s: State)
  {
    forall c :: 0 <= c < |s.callers| ==> s.callers[c].mine.delay <= s.stats.delay
  }

  // No two callers waited for different times.
  predicate SameDelays(s: State)
  {
    forall c, d :: 0 <= c < |s.callers| && 0 <= d < |s.callers| && s.callers[c].mine.delay > 0 ==>
      s.callers[d].mine.delay <= s.callers[c].mine.delay
  }

  predicate SafeOk(s: State)
  {
    && SameDelays(s)
    && (forall c :: 0 <= c < |s.callers| && Pending(s.callers[c].pc) ==> s.callers[c].mine.delay > 0)
    && (forall c :: 0 <= c < |s.callers| && Recorded(s.callers[c].pc) ==> s.callers[c].mine.delay <= s.stats.delay)
  }

  lemma SafeStep(s: State, c: nat)
    requires SafeOk(s) && Enabled(s, c)
    ensures SafeOk(Apply(s, c))
  {
    var t := Apply(s, c);
    assert forall d :: 0 <= d < |s.callers| ==> t.callers[d].mine == s.callers[d].mine;
  }

  lemma {:induction false} SafeRun(ss: seq<State>, cs: seq<nat>, i: nat)
    requires IsRun(ss, cs) && i < |ss| && SameDelays(ss[0])
    ensures SafeOk(ss[i])
  {
    if i > 0 {
      SafeRun(ss, cs, i - 1);
      assert ss[i] == Apply(ss[i - 1], cs[i - 1]);
      SafeStep(ss[i - 1], cs[i - 1]);
    }
  }

  // Caller c holds an old test while the callers from n on come and go.
  lemma {:induction false} FinishOthers(first: State, s: State, c: nat, n: nat) returns (t: State)
    requires Leads(first, s) && !s.recheck && s.lock == None && c < |s.callers| && n <= |s.callers|
    requires s.callers[c].pc == Lock
    requires forall d :: 0 <= d < |s.callers| && d != c ==> s.callers[d].pc == if d < n then Done else Test
    ensures Leads(first, t) && !t.recheck && t.lock == None && |t.callers| == |s.callers| && t.callers[c].pc == Lock
    ensures forall d :: 0 <= d < |s.callers| ==> t.callers[d].mine == s.callers[d].mine
    ensures forall d :: 0 <= d < |s.callers| && d != c ==> t.callers[d].pc == Done
    decreases |s.callers| - n
  {
    t := s;
    if n < |s.callers| {
      if n != c {
        LeadsOn(first, t, n);
        t := Apply(t, n);
        if t.callers[n].pc == Lock {
          t := WriteThrough(first, t, n);
        }
      }
      t := FinishOthers(first, t, c, n + 1);
    }
  }

  // A caller with a shorter delay can test first and write last.
  lemma RaceLosesPeak(first: State, c: nat, d: nat) returns (t: State)
    requires Init(first) && !first.recheck && c < |first.callers| && d < |first.callers|
    requires 0 < first.callers[c].mine.delay < first.callers[d].mine.delay
    ensures Leads(first, t) && AllDone(t) && t.stats == first.callers[c].mine && !HoldsMaximum(t)
  {
    var empty: seq<nat> := [];
    assert Leads(first, first) by {
      assert IsRun([first], empty) && [first][|empty|] == first;
    }
    LeadsOn(first, first, c);
    t := FinishOthers(first, Apply(first, c), c, 0);
    t := WriteThrough(first, t, c);
    assert t.callers[d].mine == first.callers[d].mine;
  }

  // The code as it is records the longest delay under every schedule exactly when no two
  // callers waited for different times.
  lemma MaximumIffSameDelays(first: State)
    requires Init(first) && !first.recheck
    ensures (forall s :: Leads(first, s) && AllDone(s) ==> HoldsMaximum(s)) <==> SameDelays(first)
  {
    if SameDelays(first) {
      forall s | Leads(first, s) && AllDone(s)
        ensures HoldsMaximum(s)
      {
        var ss: seq<State>, cs: seq<nat> :| IsRun(ss, cs) && ss[0] == first && ss[|cs|] == s;
        SafeRun(ss, cs, |cs|);
      }
    } else {
      var c, d :| 0 <= c < |first.callers| && 0 <= d < |first.callers|
                  && 0 < first.callers[c].mine.delay < first.callers[d].mine.delay;
      var t := RaceLosesPeak(first, c, d);
    }
  }
}
