// Draining: k refills of a constant MAX leave max(0, n - k * MAX) of n blocked threads.
module ThrottleDrain {
  import opened Sums
  import opened Throttle
  import opened ThrottleSafety
  import opened ThrottleTiming

  // Between refills every remaining caller has gone back to sleep and nothing else is going on.
  predicate Settled(s: State, m: int)
  {
    && Inv(s) && s.on && s.max == m && AllRest(s) && s.handler == Quiet
    && (forall t :: 0 <= t < |s.threads| ==>
          var th := s.threads[t];
          !th.signal && (th.pc.Idle? || th.pc.Leave? || (th.pc.Asleep? && th.sleepy)))
  }

  function LoopMember(th: Thread): int { if InLoop(th.pc) then 1 else 0 }

  function LoopSize(s: State): int { Sum(LoopMember, s.threads) }

  // No arrivals, no signals, no control operations.
  predicate DrainStep(k: Step)
  {
    k.Tick? || k.Run? || k.Fire? || k.Handle?
  }

  predicate IsDrainPath(ss: seq<State>, ks: seq<Step>)
  {
    IsPath(ss, ks) && forall i :: 0 <= i < |ks| ==> DrainStep(ks[i])
  }

  // From one settled state to the next, with exactly one refill on the way.
  predicate IsRound(ss: seq<State>, ks: seq<Step>, m: int)
  {
    && IsDrainPath(ss, ks)
    && Settled(ss[0], m) && Settled(ss[|ks|], m)
    && Sum(Refills, ss[|ks|].log) == Sum(Refills, ss[0].log) + 1
  }

  // A thread that is not arriving and that no signal has reached.
  predicate Calm(th: Thread)
  {
    && !th.signal && !th.pc.Entry? && !th.pc.Lookup? && th.pc != CountOut(false)
    && (InLoop(th.pc) ==> !th.intr)
  }

  predicate Parked(th: Thread)
  {
    th.pc.Idle? || th.pc.Leave? || (th.pc.Asleep? && th.sleepy)
  }

  // The value of MAX the handler carries, if any, is m.
  predicate Carries(h: Handler, m: int)
  {
    h.HSample? || h.HSum? || h.HPeak? || h.HPeakSet? || h.HAvg? || h.HAvgSet? || h.HRefill? ==> h.max == m
  }

  function NewRefills(s0: State, s: State): int { Sum(Refills, s.log) - Sum(Refills, s0.log) }

  function NewGrants(s0: State, s: State): int { Sum(Granted, s.log) - Sum(Granted, s0.log) }

  predicate Sampled(h: Handler) { OwesAverage(h) || h.HRefill? }

  // Before the refill of a round everybody sleeps.
  predicate PhaseBefore(s0: State, s: State)
  {
    && NewGrants(s0, s) == 0 && LoopSize(s) == LoopSize(s0)
    && (forall t :: 0 <= t < |s.threads| ==> Parked(s.threads[t]))
    && !s.handler.HWake? && !s.handler.HRearm?
    && Samples(s.log) == Samples(s0.log) + if Sampled(s.handler) then [LoopSize(s0)] else []
  }

  // After it, each token is still there or was taken by a thread that left the loop.
  predicate PhaseAfter(s0: State, s: State, m: int)
  {
    && s.tokens + NewGrants(s0, s) == m
    && LoopSize(s) + NewGrants(s0, s) == LoopSize(s0)
    && (!BeforeRefill(s.handler) ==> Samples(s.log) == Samples(s0.log) + [LoopSize(s0)])
  }

  predicate RoundOk(s0: State, s: State, m: int)
  {
    && s.on && s.max == m && Carries(s.handler, m) && AllRest(s) && LoopSize(s0) >= 0
    && (forall t :: 0 <= t < |s.threads| ==> Calm(s.threads[t]))
    && NewRefills(s0, s) >= 0
    && (NewRefills(s0, s) == 0 ==> PhaseBefore(s0, s))
    && (NewRefills(s0, s) == 1 ==> PhaseAfter(s0, s, m))
  }

  lemma CalmMove(s: State, th: Thread, need: bool, found: bool)
    requires s.on && Calm(th)
    ensures Calm(Advance(s, th, need, found))
    ensures LoopMember(Advance(s, th, need, found)) == LoopMember(th) - TokensTaken(s, th)
  {
  }

  lemma CalmStep(s: State, k: Step)
    requires Enabled(s, k) && DrainStep(k) && s.on
    requires forall t :: 0 <= t < |s.threads| ==> Calm(s.threads[t])
    ensures forall t :: 0 <= t < |Apply(s, k).threads| ==> Calm(Apply(s, k).threads[t])
    ensures LoopSize(Apply(s, k)) == LoopSize(s) - Gain(Granted, s, k)
  {
    ThreadsFrame(s, k);
    ThreadSum(LoopMember, s, k);
    if k.Run? {
      CalmMove(s, s.threads[k.t], k.need, k.found);
    }
  }

  lemma BlockedWhenParked(s: State)
    requires forall t :: 0 <= t < |s.threads| ==> Parked(s.threads[t])
    ensures Blocked(s.threads) == LoopSize(s)
  {
    SumSame(Waiting, s.threads, LoopMember, s.threads);
  }

  lemma TokenDelta(s: State, k: Step)
    requires Enabled(s, k)
    ensures Apply(s, k).tokens
         == if k.Handle? && s.handler.HRefill? then s.handler.max else s.tokens - Gain(Granted, s, k)
    ensures Gain(Refills, s, k) == if k.Handle? && s.handler.HRefill? then 1 else 0
    ensures k.Handle? ==> Gain(Granted, s, k) == 0
  {
  }

  lemma ParkedStep(s: State, k: Step)
    requires Enabled(s, k) && DrainStep(k) && !s.handler.HWake?
    requires forall t :: 0 <= t < |s.threads| ==> Parked(s.threads[t])
    ensures forall t :: 0 <= t < |Apply(s, k).threads| ==> Parked(Apply(s, k).threads[t])
    ensures Gain(Granted, s, k) == 0
  {
    ThreadsFrame(s, k);
    if k.Run? {
      assert Parked(s.threads[k.t]);
    }
  }

  lemma ControlStep(s: State, k: Step, m: int)
    requires Enabled(s, k) && DrainStep(k)
    requires s.on && s.max == m && Carries(s.handler, m) && AllRest(s)
    ensures var s' := Apply(s, k);
            && s'.on && s'.max == m && Carries(s'.handler, m) && AllRest(s')
            && (s'.handler == s.handler
                || (k.Fire? && s.handler == Quiet && s'.handler == HTest)
                || (k.Handle? && s'.handler == NextHandler(s)))
  {
  }

  // The sample of a round appears exactly when the handler takes it.
  lemma BeforeSamples(s0: State, s: State, k: Step, m: int)
    requires RoundOk(s0, s, m) && Enabled(s, k) && DrainStep(k) && NewRefills(s0, s) == 0
    requires !(k.Handle? && s.handler.HRefill?)
    ensures var s' := Apply(s, k);
            && !s'.handler.HWake? && !s'.handler.HRearm?
            && Samples(s'.log) == Samples(s0.log) + if Sampled(s'.handler) then [LoopSize(s0)] else []
  {
    SamplesStep(s, k);
    BlockedWhenParked(s);
    ControlStep(s, k, m);
    SampledMove(s);
    hide *;
    assert Samples(s0.log) + [] == Samples(s0.log);
  }

  lemma SampledMove(s: State)
    ensures var h := NextHandler(s);
            && !Sampled(HTest) && !Sampled(Quiet)
            && (s.handler.HSample? ==> Sampled(h) && !Sampled(s.handler))
            && (!s.handler.HSample? && !s.handler.HRefill? ==> Sampled(h) == Sampled(s.handler))
            && (!s.handler.HRefill? && !s.handler.HWake? ==> !h.HWake? && !h.HRearm?)
  {
  }

  lemma BeforeStep(s0: State, s: State, k: Step, m: int)
    requires RoundOk(s0, s, m) && Enabled(s, k) && DrainStep(k) && NewRefills(s0, s) == 0
    requires !(k.Handle? && s.handler.HRefill?)
    ensures PhaseBefore(s0, Apply(s, k))
  {
    LogSum(Granted, s, k);
    CalmStep(s, k);
    ParkedStep(s, k);
    BeforeSamples(s0, s, k, m);
    hide Apply, Calm, AllRest, Parked, Gain, Samples, LoopSize, Sampled;
  }

  lemma RefillStep(s0: State, s: State, m: int)
    requires RoundOk(s0, s, m) && NewRefills(s0, s) == 0 && s.handler.HRefill?
    ensures PhaseAfter(s0, Apply(s, Handle), m)
  {
    LogSum(Granted, s, Handle);
    CalmStep(s, Handle);
    TokenDelta(s, Handle);
    SamplesStep(s, Handle);
    ControlStep(s, Handle, m);
    hide Apply, Calm, AllRest, Parked, Gain;
    assert Samples(s0.log) + [] == Samples(s0.log);
  }

  lemma AfterStep(s0: State, s: State, k: Step, m: int)
    requires RoundOk(s0, s, m) && Enabled(s, k) && DrainStep(k) && NewRefills(s0, s) == 1
    requires !(k.Handle? && s.handler.HRefill?)
    ensures PhaseAfter(s0, Apply(s, k), m)
  {
    LogSum(Granted, s, k);
    CalmStep(s, k);
    TokenDelta(s, k);
    SamplesStep(s, k);
    ControlStep(s, k, m);
  }

  lemma RoundStep(s0: State, s: State, k: Step, m: int)
    requires RoundOk(s0, s, m) && Enabled(s, k) && DrainStep(k)
    ensures RoundOk(s0, Apply(s, k), m)
  {
    CalmStep(s, k);
    LogSum(Refills, s, k);
    TokenDelta(s, k);
    ControlStep(s, k, m);
    if NewRefills(s0, s) == 0 && k.Handle? && s.handler.HRefill? {
      RefillStep(s0, s, m);
    } else if NewRefills(s0, s) == 0 {
      BeforeStep(s0, s, k, m);
    } else if NewRefills(s0, s) == 1 && !(k.Handle? && s.handler.HRefill?) {
      AfterStep(s0, s, k, m);
    }
  }

  lemma {:induction false} RoundPath(ss: seq<State>, ks: seq<Step>, m: int, i: nat)
    requires IsDrainPath(ss, ks) && Settled(ss[0], m) && i < |ss|
    ensures RoundOk(ss[0], ss[i], m)
  {
    if i == 0 {
      var s := ss[0];
      SumNonNegative(LoopMember, s.threads);
      forall t | 0 <= t < |s.threads|
        ensures Calm(s.threads[t])
      {
        assert QueueOk(s.on, s.tokens, Debt(s), s.threads[t]);
      }
      assert Samples(s.log) + [] == Samples(s.log);
    } else {
      RoundPath(ss, ks, m, i - 1);
      RoundStep(ss[0], ss[i - 1], ks[i - 1], m);
    }
  }

  lemma {:induction false} SomeMember(threads: seq<Thread>) returns (t: nat)
    requires Sum(LoopMember, threads) > 0
    ensures t < |threads| && InLoop(threads[t].pc)
  {
    var n := |threads| - 1;
    if InLoop(threads[n].pc) {
      t := n;
    } else {
      t := SomeMember(threads[..n]);
    }
  }

  // Nobody sleeps while a token is left.
  lemma SleepersMeanNoTokens(s: State, m: int)
    requires Settled(s, m)
    ensures s.tokens >= 0 && LoopSize(s) >= 0
    ensures LoopSize(s) > 0 ==> s.tokens == 0
  {
    SumNonNegative(LoopMember, s.threads);
    if LoopSize(s) > 0 {
      var t := SomeMember(s.threads);
      assert QueueOk(s.on, s.tokens, Debt(s), s.threads[t]);
    }
  }

  // One refill releases exactly min(n, MAX) of the n blocked threads, and the sample it
  // takes is n. That no token is left while somebody sleeps is the absence of lost wake-ups.
  lemma RoundDrains(ss: seq<State>, ks: seq<Step>, m: int)
    requires IsRound(ss, ks, m)
    ensures LoopSize(ss[|ks|]) == if LoopSize(ss[0]) > m then LoopSize(ss[0]) - m else 0
    ensures LoopSize(ss[0]) >= 0
    ensures Samples(ss[|ks|].log) == Samples(ss[0].log) + [LoopSize(ss[0])]
  {
    var s := ss[|ks|];
    RoundPath(ss, ks, m, |ks|);
    SleepersMeanNoTokens(ss[0], m);
    SleepersMeanNoTokens(s, m);
    assert s.handler == Quiet;
    hide Settled, IsDrainPath, LoopSize, Calm, AllRest, Parked, Samples;
  }

  ghost predicate Round(s: State, s': State, m: int)
  {
    exists ss, ks :: IsRound(ss, ks, m) && ss[0] == s && ss[|ks|] == s'
  }

  lemma RoundFacts(s: State, s': State, m: int)
    requires Round(s, s', m)
    ensures Settled(s, m) && Settled(s', m)
    ensures LoopSize(s) >= 0
    ensures LoopSize(s') == if LoopSize(s) > m then LoopSize(s) - m else 0
    ensures s'.sum == s.sum + LoopSize(s) && s'.peak >= s.peak && s'.peak >= LoopSize(s)
  {
    var ss, ks :| IsRound(ss, ks, m) && ss[0] == s && ss[|ks|] == s';
    RoundDrains(ss, ks, m);
    StatsGrow(s, s', LoopSize(s));
  }

  function Left(n: int, m: int, k: nat): int
  {
    if n > k * m then n - k * m else 0
  }

  function TotalLeft(n: int, m: int, k: nat): int
  {
    if k == 0 then 0 else TotalLeft(n, m, k - 1) + Left(n, m, k - 1)
  }

  // k rounds from n blocked threads leave max(0, n - k * MAX), and the statistics grow by
  // exactly the numbers blocked at the k firings.
  lemma {:induction false} Drain(qs: seq<State>, m: int, k: nat)
    requires k < |qs| && m >= 1 && Settled(qs[0], m)
    requires forall i :: 0 <= i < |qs| - 1 ==> Round(qs[i], qs[i + 1], m)
    ensures Settled(qs[k], m)
    ensures LoopSize(qs[0]) >= 0
    ensures LoopSize(qs[k]) == Left(LoopSize(qs[0]), m, k)
    ensures qs[k].sum == qs[0].sum + TotalLeft(LoopSize(qs[0]), m, k)
    ensures k > 0 ==> qs[k].peak >= LoopSize(qs[0])
  {
    if k == 0 {
      SumNonNegative(LoopMember, qs[0].threads);
    } else {
      Drain(qs, m, k - 1);
      assert Round(qs[k - 1], qs[k - 1 + 1], m);
      RoundFacts(qs[k - 1], qs[k], m);
      LeftStep(LoopSize(qs[0]), m, k);
    }
  }

  lemma LeftStep(n: int, m: int, k: nat)
    requires k > 0 && m >= 1 && n >= 0
    ensures Left(n, m, k) == if Left(n, m, k - 1) > m then Left(n, m, k - 1) - m else 0
    ensures k == 1 ==> Left(n, m, k - 1) == n
  {
    assert k * m == (k - 1) * m + m;
  }

  // One more sample, with the handler at rest before and after.
  lemma StatsGrow(s: State, s': State, n: nat)
    requires StatsOk(s) && StatsOk(s') && s.handler == Quiet && s'.handler == Quiet
    requires Samples(s'.log) == Samples(s.log) + [n]
    ensures s'.sum == s.sum + n && s'.peak >= s.peak && s'.peak >= n
  {
    var xs := Samples(s.log);
    SumAppend(Itself, xs, n);
    assert (xs + [n])[..|xs|] == xs;
  }

  // After q = ceil(n / MAX) refills nobody is left and the sum has its closed form.
  lemma {:induction false} ClosedForm(n: int, m: int, k: nat)
    requires n >= 0 && m >= 1 && (k == 0 || (k - 1) * m < n)
    ensures 2 * TotalLeft(n, m, k) == 2 * k * n - m * k * (k - 1)
  {
    if k > 0 {
      assert k >= 2 ==> (k - 2) * m <= (k - 1) * m;
      ClosedForm(n, m, k - 1);
      assert Left(n, m, k - 1) == n - (k - 1) * m;
      TriangleStep(n, m, k);
    }
  }

  lemma TriangleStep(n: int, m: int, k: int)
    ensures 2 * k * n - m * k * (k - 1) == 2 * (k - 1) * n - m * (k - 1) * (k - 2) + 2 * (n - (k - 1) * m)
  {
    var p := m * (k - 1);
    assert m * k * (k - 1) == p * k;
    assert p * k - p * (k - 2) == 2 * p;
  }

  lemma AllLeave(qs: seq<State>, m: int, q: nat)
    requires q < |qs| && m >= 1 && Settled(qs[0], m)
    requires forall i :: 0 <= i < |qs| - 1 ==> Round(qs[i], qs[i + 1], m)
    requires var n := LoopSize(qs[0]); n <= q * m && (q == 0 || (q - 1) * m < n)
    ensures LoopSize(qs[q]) == 0
    ensures var n := LoopSize(qs[0]);
            2 * (qs[q].sum - qs[0].sum) == 2 * q * n - m * q * (q - 1)
  {
    Drain(qs, m, q);
    ClosedForm(LoopSize(qs[0]), m, q);
  }
}
