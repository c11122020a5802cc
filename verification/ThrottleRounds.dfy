// Rounds of draining do happen: from every settled state whose timer is armed, the timer,
// the handler and the woken threads can run to the next settled state.
module ThrottleRounds {
  import opened Sums
  import opened Throttle
  import opened ThrottleSafety
  import opened ThrottleTiming
  import opened ThrottleDrain

  // Some path of a round's steps leads from s to s'.
  ghost predicate Drains(s: State, s': State)
  {
    exists ss, ks :: IsDrainPath(ss, ks) && ss[0] == s && ss[|ks|] == s'
  }

  lemma DrainsNowhere(s: State)
    ensures Drains(s, s)
  {
    assert IsDrainPath([s], []);
  }

  lemma DrainsOn(s: State, s': State, k: Step)
    requires Drains(s, s') && Enabled(s', k) && DrainStep(k)
    ensures Drains(s, Apply(s', k))
  {
    var ss, ks :| IsDrainPath(ss, ks) && ss[0] == s && ss[|ks|] == s';
    var ss', ks' := ss + [Apply(s', k)], ks + [k];
    hide Apply, DrainStep, Enabled;
    forall i | 0 <= i < |ks'|
      ensures Enabled(ss'[i], ks'[i]) && ss'[i + 1] == Apply(ss'[i], ks'[i]) && DrainStep(ks'[i])
    {
      if i < |ks| {
        assert ss'[i] == ss[i] && ss'[i + 1] == ss[i + 1] && ks'[i] == ks[i];
      }
    }
    assert IsDrainPath(ss', ks');
  }

  // ---------------------------------------------------------------- the timer

  lemma {:induction false} WaitUntil(s0: State, s: State, n: nat)
    requires Drains(s0, s) && s.now <= n
    ensures Drains(s0, s.(now := n))
    decreases n - s.now
  {
    if s.now < n {
      DrainsOn(s0, s, Tick);
      WaitUntil(s0, s.(now := s.now + 1), n);
    } else {
      assert s.(now := n) == s;
    }
  }

  // ---------------------------------------------------------------- the handler

  // Asleep, woken, or outside; no signal.
  predicate Ready(th: Thread)
  {
    !th.signal && (th.pc.Idle? || th.pc.Leave? || th.pc.Asleep?)
  }

  predicate AllReady(s: State)
  {
    forall t :: 0 <= t < |s.threads| ==> Ready(s.threads[t])
  }

  // The monitor is on and nobody touches the controls.
  predicate Steady(s: State, m: int)
  {
    s.on && s.max == m && AllRest(s)
  }

  lemma HandleMove(s: State, m: int)
    requires Steady(s, m) && AllReady(s) && s.handler != Quiet
    ensures var s' := Apply(s, Handle);
            && Steady(s', m) && AllReady(s') && HandlerRank(s'.handler) < HandlerRank(s.handler)
            && (s'.handler == Quiet ==> s'.timer.Some?)
            && Gain(Refills, s, Handle) + (if BeforeRefill(s'.handler) then 1 else 0)
               == if BeforeRefill(s.handler) then 1 else 0
  {
    ThreadsFrame(s, Handle);
  }

  lemma {:induction false} HandleOut(s0: State, s: State, m: int) returns (t: State)
    requires Drains(s0, s) && Steady(s, m) && AllReady(s) && s.handler != Quiet
    ensures Drains(s0, t) && Steady(t, m) && AllReady(t) && t.handler == Quiet && t.timer.Some?
    ensures Sum(Refills, t.log) == Sum(Refills, s.log) + if BeforeRefill(s.handler) then 1 else 0
    decreases HandlerRank(s.handler)
  {
    DrainsOn(s0, s, Handle);
    HandleMove(s, m);
    LogSum(Refills, s, Handle);
    t := Apply(s, Handle);
    hide Apply, Drains, Gain, Steady, AllReady;
    if t.handler != Quiet {
      t := HandleOut(s0, t, m);
    }
  }

  // ---------------------------------------------------------------- the woken threads

  // On the way from a wake-up back to sleep or, holding a token, out.
  predicate OnWay(tokens: int, th: Thread)
  {
    !th.signal
    && match th.pc
       case Idle => true
       case Leave(_) => true
       case Asleep => true
       case Enqueue => true
       case WaitMon(queue) => queue && th.sleepy && !th.intr
       case WaitTok(queue) => queue && th.sleepy && !th.intr
       case Park => th.sleepy
       case Dequeue => tokens > 0
       case CountOut(ok) => ok && tokens > 0
       case AddDelay => tokens > 0
       case TryTake => tokens > 0
       case _ => false
  }

  predicate AtRest(th: Thread)
  {
    th.pc.Idle? || th.pc.Leave? || (th.pc.Asleep? && th.sleepy)
  }

  function WayRank(th: Thread): nat
  {
    if AtRest(th) then 0
    else
      match th.pc
      case Asleep => 8
      case Enqueue => 7
      case WaitMon(_) => 6
      case WaitTok(_) => 5
      case Dequeue => 4
      case CountOut(_) => 3
      case AddDelay => 2
      case _ => 1
  }

  lemma WayMove(s: State, th: Thread)
    requires s.on && OnWay(s.tokens, th) && !AtRest(th)
    ensures var th' := Advance(s, th, false, false);
            && OnWay(s.tokens - TokensTaken(s, th), th') && WayRank(th') < WayRank(th)
            && (AtRest(th') ==> Ready(th'))
  {
  }

  // Nothing but thread t and what it takes differs.
  predicate OnlyThread(s: State, s': State, t: nat)
  {
    && s'.handler == s.handler && s'.timer == s.timer && |s'.threads| == |s.threads|
    && (forall i :: 0 <= i < |s.threads| && i != t ==> s'.threads[i] == s.threads[i])
    && Sum(Refills, s'.log) == Sum(Refills, s.log)
  }

  lemma WayStep(s: State, t: nat, m: int)
    requires Steady(s, m) && t < |s.threads| && OnWay(s.tokens, s.threads[t]) && !AtRest(s.threads[t])
    requires Enabled(s, Run(t, false, false))
    ensures var s' := Apply(s, Run(t, false, false));
            && Steady(s', m) && OnlyThread(s, s', t)
            && OnWay(s'.tokens, s'.threads[t]) && WayRank(s'.threads[t]) < WayRank(s.threads[t])
            && (AtRest(s'.threads[t]) ==> Ready(s'.threads[t]))
  {
    WayMove(s, s.threads[t]);
    LogSum(Refills, s, Run(t, false, false));
  }

  lemma {:induction false} SettleThread(s0: State, s: State, t: nat, m: int) returns (s': State)
    requires Drains(s0, s) && Steady(s, m) && t < |s.threads| && OnWay(s.tokens, s.threads[t])
    requires AtRest(s.threads[t]) ==> Ready(s.threads[t])
    ensures Drains(s0, s') && Steady(s', m) && OnlyThread(s, s', t)
    ensures AtRest(s'.threads[t]) && Ready(s'.threads[t])
    decreases WayRank(s.threads[t])
  {
    s' := s;
    if !AtRest(s.threads[t]) {
      var k := Run(t, false, false);
      DrainsOn(s0, s, k);
      WayStep(s, t, m);
      hide Apply, Drains, Steady, Ready, AtRest, OnWay, WayRank;
      s' := SettleThread(s0, Apply(s, k), t, m);
    }
  }

  lemma {:induction false} SettleFrom(s0: State, s: State, t: nat, m: int) returns (s': State)
    requires Drains(s0, s) && Steady(s, m) && AllReady(s) && t <= |s.threads|
    requires forall i :: 0 <= i < t ==> AtRest(s.threads[i])
    ensures Drains(s0, s') && Steady(s', m) && AllReady(s') && s'.handler == s.handler && s'.timer == s.timer
    ensures forall i :: 0 <= i < |s'.threads| ==> AtRest(s'.threads[i])
    ensures Sum(Refills, s'.log) == Sum(Refills, s.log)
    decreases |s.threads| - t
  {
    s' := s;
    if t < |s.threads| {
      assert Ready(s.threads[t]);
      s' := SettleThread(s0, s, t, m);
      hide Drains, Steady, Ready, AtRest;
      s' := SettleFrom(s0, s', t + 1, m);
    }
  }

  // ---------------------------------------------------------------- a whole round

  lemma InvDrains(s: State, s': State)
    requires Drains(s, s') && Inv(s)
    ensures Inv(s')
  {
    var ss, ks :| IsDrainPath(ss, ks) && ss[0] == s && ss[|ks|] == s';
    InvPath(ss, ks, |ks|);
  }

  // From every settled state with an armed timer there is a next round.
  lemma RoundExists(s: State, m: int) returns (s': State)
    requires Settled(s, m) && s.timer.Some?
    ensures Round(s, s', m) && s'.timer.Some?
  {
    DrainsNowhere(s);
    var due := if s.timer.value > s.now then s.timer.value else s.now;
    WaitUntil(s, s, due);
    var s1 := s.(now := due);
    DrainsOn(s, s1, Fire);
    var s2 := HandleOut(s, Apply(s1, Fire), m);
    s' := SettleFrom(s, s2, 0, m);
    InvDrains(s, s');
    assert Settled(s', m);
    var ss, ks :| IsDrainPath(ss, ks) && ss[0] == s && ss[|ks|] == s';
    assert IsRound(ss, ks, m);
  }

  lemma {:induction false} RoundsExist(s: State, m: int, k: nat) returns (qs: seq<State>)
    requires Settled(s, m) && s.timer.Some?
    ensures |qs| == k + 1 && qs[0] == s && qs[k].timer.Some?
    ensures forall i :: 0 <= i < k ==> Round(qs[i], qs[i + 1], m)
  {
    hide Round, Settled;
    if k == 0 {
      qs := [s];
    } else {
      var front := RoundsExist(s, m, k - 1);
      if k > 1 {
        RoundFacts(front[k - 2], front[k - 1], m);
      }
      var last := RoundExists(front[k - 1], m);
      qs := front + [last];
    }
  }

  // The blocked threads can all be drained, in ceil(n / MAX) epochs and no fewer.
  lemma EveryoneDrains(s: State, m: int, q: nat) returns (qs: seq<State>)
    requires Settled(s, m) && s.timer.Some? && m >= 1
    requires var n := LoopSize(s); n <= q * m && (q == 0 || (q - 1) * m < n)
    ensures |qs| == q + 1 && qs[0] == s && forall i :: 0 <= i < q ==> Round(qs[i], qs[i + 1], m)
    ensures LoopSize(qs[q]) == 0
    ensures forall k :: 0 <= k < q ==> LoopSize(qs[k]) > 0
  {
    hide Round, Settled, LoopSize, Left;
    qs := RoundsExist(s, m, q);
    AllLeave(qs, m, q);
    forall k | 0 <= k < q
      ensures LoopSize(qs[k]) > 0
    {
      Drain(qs, m, k);
      SomeLeft(LoopSize(s), m, q, k);
      hide *;
    }
  }

  lemma SomeLeft(n: int, m: int, q: nat, k: nat)
    requires n >= 0 && m >= 1 && k < q && (q - 1) * m < n
    ensures Left(n, m, k) > 0
  {
    assert k * m <= (q - 1) * m;
  }
}
