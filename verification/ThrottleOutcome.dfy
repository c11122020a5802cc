// What becomes of a call (src/throttling_api.c:686-723, :790-809): it reaches the system
// call only if it found the monitor on at entry, so the bypass that a switched-off monitor
// should give is given only to calls that came before.
module ThrottleOutcome {
  import opened Throttle
  import opened ThrottleSafety
  import opened ThrottleWitness

  // The steps from i up to j are of one call of thread t, whose entry test is step i.
  predicate IsCall(ss: seq<State>, ks: seq<Step>, t: nat, i: nat, j: nat)
  {
    && |ss| == |ks| + 1 && i < j < |ss| && t < |ss[i].threads|
    && ks[i].Run? && ks[i].t == t && ss[i].threads[t].pc == Entry
    && (forall x :: i < x < j ==> ks[x] != Call(t))
  }

  // Past the entry test.
  predicate Decided(th: Thread, on: bool)
  {
    && !th.pc.Entry?
    && (on ==> th.pc != Leave(NotLookedUp))
    && (!on ==> th.pc == Leave(NotLookedUp) || th.pc == Idle)
  }

  lemma DecidedMove(s: State, th: Thread, need: bool, found: bool, on: bool)
    requires Decided(th, on)
    ensures Decided(Advance(s, th, need, found), on)
  {
    PcMove(s.on, s.tokens, th, need);
  }

  lemma DecidedStep(s: State, k: Step, t: nat, on: bool)
    requires Enabled(s, k) && t < |s.threads| && k != Call(t)
    requires Decided(s.threads[t], on) || (k.Run? && k.t == t && s.threads[t].pc == Entry && s.on == on)
    ensures t < |Apply(s, k).threads| && Decided(Apply(s, k).threads[t], on)
  {
    ThreadsFrame(s, k);
    if k.Run? && k.t == t && Decided(s.threads[t], on) {
      DecidedMove(s, s.threads[t], k.need, k.found, on);
    }
  }

  lemma {:induction false} EntryDecides(ss: seq<State>, ks: seq<Step>, t: nat, i: nat, j: nat)
    requires IsPath(ss, ks) && IsCall(ss, ks, t, i, j)
    ensures t < |ss[j].threads| && Decided(ss[j].threads[t], ss[i].on)
  {
    if j - 1 > i {
      EntryDecides(ss, ks, t, i, j - 1);
    }
    DecidedStep(ss[j - 1], ks[j - 1], t, ss[i].on);
  }

  // The call reaches the system call exactly if the monitor was on at its entry, its lookup
  // found the node, and no signal ended its wait; otherwise -ENOSYS or -EINTR comes back.
  lemma ReachesSyscall(ss: seq<State>, ks: seq<Step>, t: nat, i: nat, j: nat)
    requires IsRun(ss, ks) && IsCall(ss, ks, t, i, j) && j < |ks|
    requires t < |ss[j].threads| && ss[j].threads[t].pc.Leave? && ks[j].Run? && ks[j].t == t
    ensures var th := ss[j].threads[t];
            ss[j + 1].log == ss[j].log + [Returned(ss[j].now, t, th.pc.outcome,
                                                   ss[i].on && th.found && th.pc.outcome != Interrupted)]
  {
    EntryDecides(ss, ks, t, i, j);
    InvRun(ss, ks, j);
    assert CallOk(ss[j].now, ss[j].threads[t]);
    assert ss[j + 1] == Apply(ss[j], ks[j]);
  }

  // A run in which a call comes after a switch-off and is refused, however it is registered.
  lemma OffRefusesNewcomer(s: State)
    requires Init(s) && |s.threads| >= 1 && |s.ctls| >= 1
    ensures exists s' :: Leads(s, s') && !s'.on && s'.log == [Returned(0, 0, NotLookedUp, false)]
  {
    hide Leads;
    LeadsNowhere(s);
    LeadsStep(s, s, SwitchOff(0));
    var s1 := Apply(s, SwitchOff(0));
    LeadsStep(s, s1, Call(0));
    var s2 := Apply(s1, Call(0));
    LeadsStep(s, s2, Run(0, true, true));
    var s3 := Apply(s2, Run(0, true, true));
    LeadsStep(s, s3, Run(0, true, true));
    var s4 := Apply(s3, Run(0, true, true));
    assert s4.log == [Returned(0, 0, NotLookedUp, false)];
  }

  // ---------------------------------------------------------------- signals

  // Before the condition of its wait was found true.
  predicate IsHeldUp(pc: Pc)
  {
    pc.WaitMon? || pc.WaitTok? || pc.Enqueue? || pc.Park? || pc.Asleep?
  }

  // A held-up thread that a signal wakes, running alone, steps nearer to its end.
  function StepsToGo(th: Thread): nat
  {
    match th.pc
    case WaitMon(queue) => if queue && th.intr then 2 else if queue then 8 else 5
    case WaitTok(queue) => if queue && th.intr then 1 else if queue then 7 else 4
    case Park => 6
    case Asleep => 5
    case Enqueue => 3
    case _ => 0
  }

  lemma HeldUpMoves(s: State, t: nat)
    requires t < |s.threads| && IsHeldUp(s.threads[t].pc) && s.on && s.tokens <= 0
    requires s.threads[t].signal && !s.threads[t].sleepy
    ensures Enabled(s, Run(t, true, true))
    ensures var s', th := Apply(s, Run(t, true, true)), s.threads[t];
            var th' := s'.threads[t];
            && s' == s.(threads := s.threads[t := th'])
            && th'.taken == th.taken && th'.signal && !th'.sleepy
            && (th'.pc == CountOut(false) || (IsHeldUp(th'.pc) && StepsToGo(th') < StepsToGo(th)))
  {
    assert s.log + [] == s.log;
  }

  // A signal ends a wait: if the condition stays false, the thread, running alone, takes no
  // token, leaves the count of the blocked threads and comes back with -EINTR.
  lemma {:induction false} HeldUpLeaves(s0: State, s: State, t: nat) returns (s': State)
    requires Leads(s0, s) && t < |s.threads| && IsHeldUp(s.threads[t].pc) && s.on && s.tokens <= 0
    requires s.threads[t].signal && !s.threads[t].sleepy
    ensures Leads(s0, s') && |s'.threads| == |s.threads| && s'.threads[t].pc == Leave(Interrupted)
    ensures s'.threads[t].taken == s.threads[t].taken
    ensures s'.tokens == s.tokens && s'.blocked == s.blocked - 1 && s'.log == s.log && s'.now == s.now
    decreases StepsToGo(s.threads[t])
  {
    HeldUpMoves(s, t);
    LeadsStep(s0, s, Run(t, true, true));
    s' := Apply(s, Run(t, true, true));
    hide Leads;
    if s'.threads[t].pc == CountOut(false) {
      assert s'.log + [] == s'.log;
      LeadsStep(s0, s', Run(t, true, true));
      s' := Apply(s', Run(t, true, true));
    } else {
      s' := HeldUpLeaves(s0, s', t);
    }
  }

  lemma SignalInterrupts(s0: State, s: State, t: nat)
    requires Leads(s0, s) && t < |s.threads| && IsHeldUp(s.threads[t].pc) && s.on && s.tokens <= 0
    ensures exists s' :: Leads(s0, s') && t < |s'.threads| && s'.threads[t].pc == Idle
                         && s'.tokens == s.tokens && s'.blocked == s.blocked - 1
                         && s'.log == s.log + [Returned(s.now, t, Interrupted, false)]
  {
    LeadsStep(s0, s, Signal(t));
    var s1 := HeldUpLeaves(s0, Apply(s, Signal(t)), t);
    LeadsStep(s0, s1, Run(t, true, true));
    var s2 := Apply(s1, Run(t, true, true));
    assert s2.threads[t].pc == Idle;
  }

  // One step of thread t, if it touches neither tokens nor log.
  lemma Quietly(s0: State, s: State, t: nat) returns (s': State)
    requires Leads(s0, s) && t < |s.threads| && s.on
    requires s.threads[t].pc.Entry? || s.threads[t].pc.Lookup? || s.threads[t].pc.CountIn? || s.threads[t].pc.Stamp?
             || s.threads[t].pc.TestOff? || (s.threads[t].pc.TryTake? && s.tokens <= 0)
    ensures Leads(s0, s') && |s'.threads| == |s.threads| && s'.on && s'.tokens == s.tokens && s'.now == s.now
    ensures s'.threads[t].pc == NextPc(s.on, s.tokens, s.threads[t], true)
  {
    LeadsStep(s0, s, Run(t, true, true));
    s' := Apply(s, Run(t, true, true));
  }

  // From load: three calls take the tokens, a fourth has to wait, and a signal ends it.
  lemma InterruptedCall(s: State)
    requires Init(s) && |s.threads| >= 4
    ensures exists s' :: Leads(s, s') && s'.log != [] && s'.log[|s'.log| - 1] == Returned(0, 3, Interrupted, false)
  {
    LeadsNowhere(s);
    var s1 := TakeTokens(s, s, 0, 3, 0, 1);
    LeadsStep(s, s1, Call(3));
    s1 := Apply(s1, Call(3));
    hide Leads, Init;
    s1 := Quietly(s, s1, 3);
    s1 := Quietly(s, s1, 3);
    s1 := Quietly(s, s1, 3);
    s1 := Quietly(s, s1, 3);
    s1 := Quietly(s, s1, 3);
    s1 := Quietly(s, s1, 3);
    SignalInterrupts(s, s1, 3);
    var s' :| Leads(s, s') && 3 < |s'.threads| && s'.threads[3].pc == Idle
              && s'.tokens == s1.tokens && s'.blocked == s1.blocked - 1
              && s'.log == s1.log + [Returned(s1.now, 3, Interrupted, false)];
    assert s'.log[|s'.log| - 1] == Returned(0, 3, Interrupted, false);
  }

  predicate LeavesIn(ss: seq<State>, ks: seq<Step>, t: nat, x: nat)
    requires |ss| == |ks| + 1 && x < |ks|
  {
    ks[x].Run? && ks[x].t == t && t < |ss[x].threads| && ss[x].threads[t].pc.Leave?
  }

  // A signal for thread t since its last return, if any.
  predicate IsSignalled(ss: seq<State>, ks: seq<Step>, t: nat, j: nat)
    requires |ss| == |ks| + 1 && j < |ss|
    decreases j
  {
    j > 0 && (ks[j - 1] == Signal(t) || (!LeavesIn(ss, ks, t, j - 1) && IsSignalled(ss, ks, t, j - 1)))
  }

  // What a call knows of signals.
  predicate SignalOk(th: Thread, signalled: bool)
  {
    && (th.signal <==> signalled)
    && (!th.pc.Idle? && th.intr ==> th.signal)
    && (th.pc == CountOut(false) || th.pc == Leave(Interrupted) ==> th.signal)
  }

  lemma SignalStep(s: State, k: Step, t: nat, signalled: bool)
    requires Enabled(s, k) && t < |s.threads| && SignalOk(s.threads[t], signalled)
    ensures t < |Apply(s, k).threads|
    ensures var left := k.Run? && k.t == t && s.threads[t].pc.Leave?;
            SignalOk(Apply(s, k).threads[t], k == Signal(t) || (!left && signalled))
  {
    ThreadsFrame(s, k);
  }

  // A pending signal is one that came since the last return, and only a call for which one
  // came is ever interrupted.
  lemma {:induction false} OnlySignalsInterrupt(ss: seq<State>, ks: seq<Step>, t: nat, j: nat)
    requires IsRun(ss, ks) && j < |ss| && t < |ss[0].threads|
    ensures t < |ss[j].threads| && (ss[j].threads[t].signal <==> IsSignalled(ss, ks, t, j))
    ensures SignalOk(ss[j].threads[t], IsSignalled(ss, ks, t, j))
    ensures ss[j].threads[t].pc == Leave(Interrupted) ==> IsSignalled(ss, ks, t, j)
    decreases j
  {
    if j > 0 {
      OnlySignalsInterrupt(ss, ks, t, j - 1);
      SignalStep(ss[j - 1], ks[j - 1], t, IsSignalled(ss, ks, t, j - 1));
      hide Apply, Enabled, SignalOk, Init;
    }
  }
}
