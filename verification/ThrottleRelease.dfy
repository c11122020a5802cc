// Switching the monitor off releases every thread of the admission loop.
module ThrottleRelease {
  import opened Sums
  import opened Throttle
  import opened ThrottleSafety

  // How many own steps, at most, separate a thread from leaving the loop once the monitor
  // is off. A sleeper still has to be woken: that costs one more.
  function PcRank(pc: Pc): nat
  {
    match pc
    case Idle => 0
    case Entry => 0
    case Leave(_) => 0
    case TestOff => 1
    case TryTake => 2
    case Lookup => 3
    case AddDelay => 3
    case CountOut(_) => 4
    case Dequeue => 5
    case WaitMon(_) => 6
    case Stamp => 7
    case Enqueue => 8
    case CountIn => 8
    case Asleep => 9
    case Park => 10
    case WaitTok(_) => 11
  }

  function Rank(th: Thread): int
  {
    PcRank(th.pc) + if th.sleepy then 1 else 0
  }

  function Measure(s: State): int
  {
    Sum(Rank, s.threads)
  }

  // A step of a thread that is between the lookup and the exit.
  predicate IsLoopStep(s: State, k: Step)
  {
    k.Run? && k.t < |s.threads| && PcRank(s.threads[k.t].pc) > 0
  }

  lemma RankMove(s: State, th: Thread, need: bool, found: bool)
    requires !s.on && QueueOk(s.on, s.tokens, true, th)
    requires th.pc.Asleep? ==> !th.sleepy
    ensures Rank(Advance(s, th, need, found)) <= Rank(th)
    ensures PcRank(th.pc) > 0 ==> Rank(Advance(s, th, need, found)) < Rank(th)
  {
  }

  // A thread that only an outside step can move on.
  predicate Stuck(th: Thread)
  {
    th.pc.Asleep? && th.sleepy
  }

  lemma MeasureTouch(s: State, k: Step)
    requires Inv(s) && Enabled(s, k) && !s.on && Touches(k)
    ensures Measure(Apply(s, k)) <= Measure(s)
    ensures IsLoopStep(s, k) ==> Measure(Apply(s, k)) < Measure(s)
  {
    var s' := Apply(s, k);
    ThreadsFrame(s, k);
    SumUpdate(Rank, s.threads, k.t, s'.threads[k.t]);
    assert QueueOk(s.on, s.tokens, Debt(s), s.threads[k.t]);
    if k.Run? {
      RankMove(s, s.threads[k.t], k.need, k.found);
    }
  }

  lemma WokenRank(th: Thread)
    ensures Rank(Woken(th)) <= Rank(th)
    ensures th.queued && th.sleepy ==> Rank(Woken(th)) < Rank(th)
  {
  }

  lemma MeasureWake(s: State, k: Step, t: nat)
    requires Inv(s) && Enabled(s, k) && Wakes(s, k) && t < |s.threads| && s.threads[t].sleepy
    ensures Measure(Apply(s, k)) < Measure(s)
  {
    ThreadsFrame(s, k);
    forall u | 0 <= u < |s.threads|
      ensures Rank(WakeAll(s.threads)[u]) <= Rank(s.threads[u])
    {
      WokenRank(s.threads[u]);
    }
    assert QueueOk(s.on, s.tokens, Debt(s), s.threads[t]);
    WokenRank(s.threads[t]);
    StrictSum(s.threads, WakeAll(s.threads), t);
  }

  // With the monitor off no step raises the measure, whatever arrives, and every step of a
  // thread in the loop and every wake-up of a sleeper lowers it.
  lemma MeasureStep(s: State, k: Step)
    requires Inv(s) && Enabled(s, k) && !s.on
    ensures Measure(Apply(s, k)) <= Measure(s)
    ensures IsLoopStep(s, k) ==> Measure(Apply(s, k)) < Measure(s)
    ensures forall t :: Wakes(s, k) && 0 <= t < |s.threads| && s.threads[t].sleepy ==> Measure(Apply(s, k)) < Measure(s)
  {
    if Touches(k) {
      MeasureTouch(s, k);
    } else {
      forall t | Wakes(s, k) && 0 <= t < |s.threads| && s.threads[t].sleepy
        ensures Measure(Apply(s, k)) < Measure(s)
      {
        MeasureWake(s, k, t);
      }
      ThreadsFrame(s, k);
      forall u | 0 <= u < |s.threads|
        ensures Rank(Apply(s, k).threads[u]) <= Rank(s.threads[u])
      {
        WokenRank(s.threads[u]);
      }
      SumLe(Rank, Apply(s, k).threads, Rank, s.threads);
    }
  }

  lemma StrictSum(xs: seq<Thread>, ys: seq<Thread>, t: nat)
    requires |xs| == |ys| && t < |xs|
    requires forall u :: 0 <= u < |xs| ==> Rank(ys[u]) <= Rank(xs[u])
    requires Rank(ys[t]) < Rank(xs[t])
    ensures Sum(Rank, ys) < Sum(Rank, xs)
  {
    SumUpdate(Rank, ys, t, xs[t]);
    SumLe(Rank, ys[t := xs[t]], Rank, xs);
  }

  // As long as a thread is in the loop, some step that lowers the measure is enabled: its
  // own, or, if it sleeps, the wake-up the switch-off still owes.
  lemma ReleaseProgress(s: State, t: nat) returns (k: Step)
    requires Inv(s) && !s.on && t < |s.threads| && InLoop(s.threads[t].pc)
    ensures Enabled(s, k) && (IsLoopStep(s, k) || Wakes(s, k))
    ensures Measure(Apply(s, k)) < Measure(s)
  {
    var th := s.threads[t];
    assert QueueOk(s.on, s.tokens, Debt(s), th);
    if !Stuck(th) {
      k := Run(t, false, false);
    } else if s.handler == HWake {
      k := Handle;
    } else {
      var c :| 0 <= c < |s.ctls| && s.ctls[c] == OffWake;
      k := Control(c);
    }
    MeasureStep(s, k);
  }

  function LoopSteps(ss: seq<State>, ks: seq<Step>): nat
    requires |ks| <= |ss|
  {
    if ks == [] then 0
    else
      var n := |ks| - 1;
      LoopSteps(ss, ks[..n]) + if IsLoopStep(ss[n], ks[n]) then 1 else 0
  }

  // If the monitor goes off and stays off, the threads in the loop take at most Measure
  // further steps, however the rest interleaves; and unless the loop is empty another
  // measure-lowering step is always enabled.
  lemma {:induction false} SwitchOffReleasesEveryone(ss: seq<State>, ks: seq<Step>)
    requires IsPath(ss, ks) && Inv(ss[0])
    requires forall i :: 0 <= i < |ss| ==> !ss[i].on
    ensures LoopSteps(ss, ks) + Measure(ss[|ks|]) <= Measure(ss[0])
    ensures Measure(ss[|ks|]) >= 0
    ensures forall t :: 0 <= t < |ss[|ks|].threads| && InLoop(ss[|ks|].threads[t].pc) ==>
              exists k :: Enabled(ss[|ks|], k) && Measure(Apply(ss[|ks|], k)) < Measure(ss[|ks|])
    decreases |ks|
  {
    var last := ss[|ks|];
    InvPath(ss, ks, |ks|);
    SumNonNegative(Rank, last.threads);
    if ks != [] {
      var n := |ks| - 1;
      var prefix := ss[..n + 1];
      assert IsPath(prefix, ks[..n]);
      SwitchOffReleasesEveryone(prefix, ks[..n]);
      LoopStepsPrefix(ss, prefix, ks[..n]);
      InvPath(ss, ks, n);
      MeasureStep(ss[n], ks[n]);
    }
    forall t | 0 <= t < |last.threads| && InLoop(last.threads[t].pc)
      ensures exists k :: Enabled(last, k) && Measure(Apply(last, k)) < Measure(last)
    {
      var k := ReleaseProgress(last, t);
    }
  }

  lemma {:induction false} LoopStepsPrefix(ss: seq<State>, prefix: seq<State>, ks: seq<Step>)
    requires |ks| <= |prefix| <= |ss| && prefix == ss[..|prefix|]
    ensures LoopSteps(ss, ks) == LoopSteps(prefix, ks)
  {
    if ks != [] {
      LoopStepsPrefix(ss, prefix, ks[..|ks| - 1]);
    }
  }
}
