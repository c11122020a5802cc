// Uninterrupted stretches of runs: what a whole handler firing does, a run that attains the
// rate bound, and a run that shows what overlapping on/off operations cost.
module ThrottleWitness {
  import opened Wrappers
  import opened Sums
  import opened Throttle
  import opened ThrottleSafety
  import opened ThrottleTiming
  import MovingAverage

  // ---------------------------------------------------------------- stretches

  predicate IsStretch(ss: seq<State>, ks: seq<Step>)
  {
    IsPath(ss, ks) && forall i :: 0 <= i < |ks| ==> SerialStep(ss[i], ks[i]) && !ks[i].SetMax?
  }

  // Some serialised path without a change of MAX leads from s to s'.
  ghost predicate Leads(s: State, s': State)
  {
    exists ss, ks :: IsStretch(ss, ks) && ss[0] == s && ss[|ks|] == s'
  }

  lemma LeadsNowhere(s: State)
    ensures Leads(s, s)
  {
    assert IsStretch([s], []);
  }

  lemma LeadsStep(s: State, s': State, k: Step)
    requires Leads(s, s') && Enabled(s', k) && SerialStep(s', k) && !k.SetMax?
    ensures Leads(s, Apply(s', k))
  {
    var ss, ks :| IsStretch(ss, ks) && ss[0] == s && ss[|ks|] == s';
    var ss', ks' := ss + [Apply(s', k)], ks + [k];
    hide Apply, Enabled, SerialStep;
    forall i | 0 <= i < |ks'|
      ensures Enabled(ss'[i], ks'[i]) && ss'[i + 1] == Apply(ss'[i], ks'[i])
      ensures SerialStep(ss'[i], ks'[i]) && !ks'[i].SetMax?
    {
      if i < |ks| {
        assert ss'[i] == ss[i] && ss'[i + 1] == ss[i + 1] && ks'[i] == ks[i];
      }
    }
    assert IsStretch(ss', ks');
  }

  lemma {:induction false} StretchMax(ss: seq<State>, ks: seq<Step>, i: nat)
    requires IsStretch(ss, ks) && i < |ss|
    ensures ss[i].max == ss[0].max
  {
    if i > 0 {
      StretchMax(ss, ks, i - 1);
    }
  }

  // ---------------------------------------------------------------- one handler firing

  // The whole effect of a firing that nothing interrupts.
  function Epoch(s: State): State
  {
    var b := Unsigned(s.blocked);
    s.(handler := Quiet,
       sum := s.sum + b,
       peak := if b > s.peak then b else s.peak,
       avg := MovingAverage.AverageStep(s.avg, b),
       tokens := s.max,
       threads := WakeAll(s.threads),
       timer := Some(s.now + s.hz),
       log := s.log + [Sample(s.now, Blocked(s.threads)), Refill(s.now, s.max)])
  }

  lemma HandleTo(s0: State, s: State, s': State)
    requires Leads(s0, s) && s.handler != Quiet && s' == RunHandler(s)
    ensures Leads(s0, s')
  {
    LeadsStep(s0, s, Handle);
  }

  lemma PassSample(s0: State, s: State)
    requires Leads(s0, s) && s.on && s.handler == HTest
    ensures Leads(s0, s.(handler := HSum(s.max, Unsigned(s.blocked)), log := s.log + [Sample(s.now, Blocked(s.threads))]))
  {
    assert s.log + [] == s.log;
    HandleTo(s0, s, s.(handler := HMax));
    HandleTo(s0, s.(handler := HMax), s.(handler := HSample(s.max)));
    HandleTo(s0, s.(handler := HSample(s.max)),
             s.(handler := HSum(s.max, Unsigned(s.blocked)), log := s.log + [Sample(s.now, Blocked(s.threads))]));
  }

  lemma PassStatistics(s0: State, s: State, m: int, b: nat)
    requires Leads(s0, s) && s.handler == HSum(m, b)
    ensures Leads(s0, s.(handler := HRefill(m), sum := s.sum + b, peak := if b > s.peak then b else s.peak,
                         avg := MovingAverage.AverageStep(s.avg, b)))
  {
    hide Leads;
    assert s.log + [] == s.log;
    var next := MovingAverage.AverageStep(s.avg, b);
    var s1 := s.(handler := HPeak(m, b), sum := s.sum + b);
    HandleTo(s0, s, s1);
    var s2 := s1.(handler := HAvg(m, b), peak := if b > s.peak then b else s.peak);
    if b > s.peak {
      HandleTo(s0, s1, s1.(handler := HPeakSet(m, b)));
      HandleTo(s0, s1.(handler := HPeakSet(m, b)), s2);
    } else {
      HandleTo(s0, s1, s2);
    }
    HandleTo(s0, s2, s2.(handler := HAvgSet(m, next)));
    HandleTo(s0, s2.(handler := HAvgSet(m, next)), s2.(handler := HRefill(m), avg := next));
  }

  lemma PassRefill(s0: State, s: State, m: int)
    requires Leads(s0, s) && s.handler == HRefill(m)
    ensures Leads(s0, s.(handler := Quiet, tokens := m, threads := WakeAll(s.threads), timer := Some(s.now + s.hz),
                         log := s.log + [Refill(s.now, m)]))
  {
    var s1 := s.(handler := HWake, tokens := m, log := s.log + [Refill(s.now, m)]);
    assert s1.log + [] == s1.log;
    HandleTo(s0, s, s1);
    var s2 := s1.(handler := HRearm, threads := WakeAll(s.threads));
    HandleTo(s0, s1, s2);
    HandleTo(s0, s2, s2.(handler := Quiet, timer := Some(s.now + s.hz)));
  }

  // The handler's steps, taken one after the other, add up to Epoch.
  lemma HandlerPass(s0: State, s: State)
    requires Leads(s0, s) && s.on && s.handler == HTest
    ensures Leads(s0, Epoch(s))
  {
    var m, b := s.max, Unsigned(s.blocked);
    PassSample(s0, s);
    var s1 := s.(handler := HSum(m, b), log := s.log + [Sample(s.now, Blocked(s.threads))]);
    PassStatistics(s0, s1, m, b);
    PassRefill(s0, s1.(handler := HRefill(m), sum := s.sum + b, peak := if b > s.peak then b else s.peak,
                       avg := MovingAverage.AverageStep(s.avg, b)), m);
    assert s1.log + [Refill(s.now, m)] == Epoch(s).log;
  }

  // ---------------------------------------------------------------- the bound is attained

  lemma GrantsAppend(log: seq<Event>, e: Event, from: nat, to: nat)
    ensures GrantsWithin(log + [e], from, to)
         == GrantsWithin(log, from, to) + if e.Grant? && from <= e.at < to then 1 else 0
  {
    assert (log + [e])[..|log|] == log;
  }

  function With(s: State, t: nat, th: Thread): State
    requires t < |s.threads|
  {
    s.(threads := s.threads[t := th])
  }

  // A step of thread t that touches nothing shared.
  lemma MoveThread(s0: State, s: State, t: nat, th: Thread, th': Thread)
    requires t < |s.threads| && Leads(s0, With(s, t, th))
    requires th.pc.Entry? || th.pc.Lookup?
    requires th' == Advance(s, th, true, true)
    ensures Leads(s0, With(s, t, th'))
  {
    var s1 := With(s, t, th);
    LeadsStep(s0, s1, Run(t, true, true));
    assert s1.threads[t := th'] == s.threads[t := th'];
    assert s.log + [] == s.log;
    assert Advance(s1, th, true, true) == th';
    assert RunThread(s1, t, true, true) == With(s, t, th');
  }

  // Everything a witness needs to know about a stretch in which threads t .. t + n - 1 took
  // the n tokens that were left.
  predicate Taken(s: State, s': State, t: nat, n: nat, from: nat, to: nat)
  {
    && s'.on == s.on && s'.max == s.max && s'.hz == s.hz && s'.now == s.now && s'.timer == s.timer
    && s'.handler == s.handler && s'.ctls == s.ctls && s'.tokens == s.tokens - n
    && |s'.threads| == |s.threads|
    && (forall i :: 0 <= i < |s.threads| && !(t <= i < t + n) ==> s'.threads[i] == s.threads[i])
    && (forall i :: t <= i < t + n && i < |s.threads| ==> s'.threads[i].pc == Leave(Token))
    && GrantsWithin(s'.log, from, to) == GrantsWithin(s.log, from, to) + n
    && Sum(Admitted, s'.log) == Sum(Admitted, s.log)
  }

  // Thread t calls, is monitored, and takes a token at once.
  lemma TakeToken(s0: State, s: State, t: nat, from: nat, to: nat) returns (s': State)
    requires Leads(s0, s) && s.on && s.tokens > 0 && t < |s.threads| && s.threads[t].pc == Idle
    requires from <= s.now < to
    ensures Leads(s0, s') && Taken(s, s', t, 1, from, to)
  {
    var th := FRESH_THREAD.(pc := Entry, entered := s.now, signal := s.threads[t].signal);
    LeadsStep(s0, s, Call(t));
    assert Apply(s, Call(t)) == With(s, t, th);
    MoveThread(s0, s, t, th, th.(pc := Lookup));
    MoveThread(s0, s, t, th.(pc := Lookup), th.(pc := TryTake, found := true));
    var s3 := With(s, t, th.(pc := TryTake, found := true));
    LeadsStep(s0, s3, Run(t, true, true));
    s' := RunThread(s3, t, true, true);
    assert s'.log == s.log + [Grant(s.now, t)];
    GrantsAppend(s.log, Grant(s.now, t), from, to);
    SumAppend(Admitted, s.log, Grant(s.now, t));
  }

  // Threads t to t + n - 1 take n tokens.
  lemma {:induction false} TakeTokens(s0: State, s: State, t: nat, n: nat, from: nat, to: nat) returns (s': State)
    requires Leads(s0, s) && s.on && s.tokens >= n && t + n <= |s.threads| && from <= s.now < to
    requires forall i :: t <= i < t + n ==> s.threads[i].pc == Idle
    ensures Leads(s0, s') && Taken(s, s', t, n, from, to)
    decreases n
  {
    s' := s;
    if n > 0 {
      hide Leads;
      s' := TakeToken(s0, s, t, from, to);
      s' := TakeTokens(s0, s', t + 1, n - 1, from, to);
    }
  }

  lemma {:induction false} TickTo(s0: State, s: State, n: nat)
    requires Leads(s0, s) && s.now <= n
    ensures Leads(s0, s.(now := n))
    decreases n - s.now
  {
    if s.now < n {
      LeadsStep(s0, s, Tick);
      TickTo(s0, s.(now := s.now + 1), n);
    } else {
      assert s.(now := n) == s;
    }
  }

  lemma EpochGrants(s: State, from: nat, to: nat)
    ensures GrantsWithin(Epoch(s).log, from, to) == GrantsWithin(s.log, from, to)
    ensures Sum(Admitted, Epoch(s).log) == Sum(Admitted, s.log)
  {
    var log1 := s.log + [Sample(s.now, Blocked(s.threads))];
    GrantsAppend(s.log, Sample(s.now, Blocked(s.threads)), from, to);
    GrantsAppend(log1, Refill(s.now, s.max), from, to);
    SumAppend(Admitted, s.log, Sample(s.now, Blocked(s.threads)));
    SumAppend(Admitted, log1, Refill(s.now, s.max));
    assert Epoch(s).log == log1 + [Refill(s.now, s.max)];
  }

  // A due firing on a monitor that is on.
  lemma FireNow(s0: State, s: State, from: nat, to: nat) returns (s': State)
    requires Leads(s0, s) && s.on && s.handler == Quiet && s.timer.Some? && s.timer.value <= s.now
    ensures Leads(s0, s') && s'.on && s'.tokens == s'.max == s.max && s'.now == s.now && s'.hz == s.hz
    ensures s'.handler == Quiet && s'.timer == Some(s.now + s.hz)
    ensures s'.threads == WakeAll(s.threads)
    ensures GrantsWithin(s'.log, from, to) == GrantsWithin(s.log, from, to)
    ensures Sum(Admitted, s'.log) == Sum(Admitted, s.log)
  {
    hide Leads;
    LeadsStep(s0, s, Fire);
    var s1 := s.(timer := None, handler := HTest);
    HandlerPass(s0, s1);
    EpochGrants(s1, from, to);
    s' := Epoch(s1);
  }

  lemma LeadsToRun(s0: State, k: Step, s: State, s': State) returns (ss: seq<State>, ks: seq<Step>)
    requires Init(s0) && Enabled(s0, k) && SerialStep(s0, k) && s == Apply(s0, k) && Leads(s, s')
    ensures IsSerialRun(ss, ks) && ss[0] == s0 && |ks| >= 1 && ks[0] == k && ss[|ks|] == s'
    ensures forall i :: 1 <= i < |ss| ==> ss[i].max == s.max
  {
    var ss1, ks1 :| IsStretch(ss1, ks1) && ss1[0] == s && ss1[|ks1|] == s';
    ss, ks := [s0] + ss1, [k] + ks1;
    hide Apply, Enabled, SerialStep;
    forall i | 0 <= i < |ks|
      ensures Enabled(ss[i], ks[i]) && ss[i + 1] == Apply(ss[i], ks[i]) && SerialStep(ss[i], ks[i])
    {
      if i > 0 {
        assert ss[i] == ss1[i - 1] && ss[i + 1] == ss1[i] && ks[i] == ks1[i - 1];
      }
    }
    forall i | 1 <= i < |ss|
      ensures ss[i].max == s.max
    {
      StretchMax(ss1, ks1, i - 1);
    }
  }

  // m grants on each side of a refill.
  lemma TwiceGrants(s0: State, s: State, m: nat, from: nat, to: nat) returns (s': State)
    requires Leads(s0, s) && s.on && s.tokens == s.max == m && |s.threads| == 2 * m && from <= s.now < to
    requires s.handler == Quiet && s.timer.Some? && s.timer.value <= s.now
    requires forall i :: 0 <= i < 2 * m ==> s.threads[i] == FRESH_THREAD
    ensures Leads(s0, s') && GrantsWithin(s'.log, from, to) == GrantsWithin(s.log, from, to) + 2 * m
  {
    hide Leads;
    s' := TakeTokens(s0, s, 0, m, from, to);
    s' := FireNow(s0, s', from, to);
    s' := TakeTokens(s0, s', m, m, from, to);
  }

  // The bound is attained for every MAX: from load on, one command that sets it to m, one
  // epoch to fill the budget, then m grants on each side of a refill at time 2 * HZ.
  lemma TwoMaxAttained(s: State, m: nat) returns (ss: seq<State>, ks: seq<Step>)
    requires Init(s) && m >= 1 && |s.threads| == 2 * m
    ensures IsSerialRun(ss, ks) && ss[0] == s && |ks| >= 1 && ks[0] == SetMax(m)
    ensures forall i :: 1 <= i < |ss| ==> ss[i].max == m
    ensures GrantsWithin(ss[|ks|].log, 2 * s.hz, 3 * s.hz) == 2 * m
  {
    var from, to := 2 * s.hz, 3 * s.hz;
    var s1 := Apply(s, SetMax(m));
    LeadsNowhere(s1);
    TickTo(s1, s1, s.hz);
    var s2 := FireNow(s1, s1.(now := s.hz), from, to);
    TickTo(s1, s2, from);
    var s3 := s2.(now := from);
    assert forall i :: 0 <= i < 2 * m ==> s3.threads[i] == FRESH_THREAD;
    var s4 := TwiceGrants(s1, s3, m, from, to);
    ss, ks := LeadsToRun(s, SetMax(m), s1, s4);
  }

  // ---------------------------------------------------------------- calls let through

  // The first h threads hold a token, the others have not called yet, and the timer is due.
  predicate Piled(s: State, m: nat, h: nat)
  {
    && s.hz >= 1 && s.on && s.tokens == s.max == m && s.handler == Quiet && s.timer.Some? && s.timer.value <= s.now
    && (forall i :: 0 <= i < |s.threads| ==> if i < h then s.threads[i].pc == Leave(Token) else s.threads[i] == FRESH_THREAD)
    && Sum(Admitted, s.log) == 0
  }

  // The next m threads take the tokens, and the timer fires.
  lemma PileMore(s0: State, s: State, m: nat, h: nat) returns (s': State)
    requires Leads(s0, s) && Piled(s, m, h) && h + m <= |s.threads|
    ensures Leads(s0, s') && s'.now == s.now && s'.hz == s.hz && |s'.threads| == |s.threads|
    ensures s'.timer == Some(s.now + s.hz) && Piled(s'.(now := s.now + s.hz), m, h + m)
  {
    hide Leads;
    s' := TakeTokens(s0, s, h, m, s.now, s.now + 1);
    s' := FireNow(s0, s', s.now, s.now + 1);
  }

  // k times m, as a sum.
  function Pile(m: nat, k: nat): nat
  {
    if k == 0 then 0 else m + Pile(m, k - 1)
  }

  lemma {:induction false} PileIsProduct(m: nat, k: nat)
    ensures Pile(m, k) == k * m && (k + 2) * m == Pile(m, k) + 2 * m
  {
    if k > 0 {
      PileIsProduct(m, k - 1);
    }
  }

  // k rounds of that, one period after the other.
  lemma {:induction false} PileUp(s0: State, s: State, m: nat, h: nat, k: nat) returns (s': State)
    requires Leads(s0, s) && Piled(s, m, h) && h + Pile(m, k) <= |s.threads|
    ensures Leads(s0, s') && Piled(s', m, h + Pile(m, k)) && s'.hz == s.hz && |s'.threads| == |s.threads|
    decreases k
  {
    hide Leads, Piled;
    if k == 0 {
      assert h + Pile(m, 0) == h;
      s' := s;
    } else {
      s' := PileMore(s0, s, m, h);
      TickTo(s0, s', s.now + s.hz);
      s' := PileUp(s0, s'.(now := s.now + s.hz), m, h + m, k - 1);
      assert h + Pile(m, k) == h + m + Pile(m, k - 1);
    }
  }

  lemma LeaveNow(s0: State, s: State, t: nat) returns (s': State)
    requires Leads(s0, s) && t < |s.threads| && s.threads[t].pc == Leave(Token)
    ensures Leads(s0, s') && s'.now == s.now && |s'.threads| == |s.threads|
    ensures forall i :: 0 <= i < |s.threads| && i != t ==> s'.threads[i] == s.threads[i]
    ensures Sum(Admitted, s'.log) == Sum(Admitted, s.log) + 1
  {
    LeadsStep(s0, s, Run(t, true, true));
    s' := RunThread(s, t, true, true);
    var e := Returned(s.now, t, Token, s.threads[t].found);
    assert s'.log == s.log + [e];
    SumAppend(Admitted, s.log, e);
  }

  lemma {:induction false} AllLeaveNow(s0: State, s: State, t: nat) returns (s': State)
    requires Leads(s0, s) && t <= |s.threads|
    requires forall i :: t <= i < |s.threads| ==> s.threads[i].pc == Leave(Token)
    ensures Leads(s0, s') && s'.now == s.now
    ensures Sum(Admitted, s'.log) == Sum(Admitted, s.log) + |s.threads| - t
    decreases |s.threads| - t
  {
    s' := s;
    if t < |s.threads| {
      hide Leads;
      s' := LeaveNow(s0, s, t);
      s' := AllLeaveNow(s0, s', t + 1);
    }
  }

  // From a pile with room for 2 * m more: they take the tokens on both sides of a refill, and
  // all calls are let through at once.
  lemma LetAllThrough(s: State, m: nat, h: nat) returns (s': State)
    requires Piled(s, m, h) && |s.threads| == h + 2 * m
    ensures Leads(s, s') && s'.now == s.now && Sum(Admitted, s'.log) == h + 2 * m
  {
    LeadsNowhere(s);
    hide Leads;
    s' := TakeTokens(s, s, h, m, s.now, s.now + 1);
    s' := FireNow(s, s', s.now, s.now + 1);
    s' := TakeTokens(s, s', h + m, m, s.now, s.now + 1);
    s' := AllLeaveNow(s, s', 0);
  }

  lemma {:induction false} HoldersCounted(threads: seq<Thread>, h: nat)
    requires h <= |threads|
    requires forall i :: 0 <= i < |threads| ==> HoldsToken(threads[i]) == if i < h then 1 else 0
    ensures Sum(HoldsToken, threads) == h
  {
    if threads != [] {
      HoldersCounted(threads[..|threads| - 1], if h == |threads| then h - 1 else h);
    }
  }

  lemma PiledHolds(s: State, m: nat, h: nat)
    requires Piled(s, m, h) && h <= |s.threads|
    ensures Sum(HoldsToken, s.threads) == h && Sum(Admitted, s.log) == 0
  {
    HoldersCounted(s.threads, h);
  }

  // From load, with MAX set to m, to the first full budget.
  lemma FirstEpoch(s: State, m: nat) returns (s': State)
    requires Init(s) && m >= 1
    ensures Apply(s, SetMax(m)).max == m && Leads(Apply(s, SetMax(m)), s')
    ensures Piled(s', m, 0) && |s'.threads| == |s.threads|
  {
    var s1 := Apply(s, SetMax(m));
    LeadsNowhere(s1);
    TickTo(s1, s1, s.hz);
    var s2 := FireNow(s1, s1.(now := s.hz), 0, 0);
    TickTo(s1, s2, 2 * s.hz);
    s' := s2.(now := 2 * s.hz);
  }

  // A second stretch goes on where the first one ended.
  lemma Join(ss1: seq<State>, ks1: seq<Step>, ss2: seq<State>, ks2: seq<Step>)
    requires IsSerialRun(ss1, ks1) && IsStretch(ss2, ks2) && ss2[0] == ss1[|ks1|]
    ensures IsSerialRun(ss1 + ss2[1..], ks1 + ks2) && (ss1 + ss2[1..])[|ks1| + |ks2|] == ss2[|ks2|]
    ensures forall i :: |ks1| < i <= |ks1| + |ks2| ==> (ss1 + ss2[1..])[i].max == ss1[|ks1|].max
  {
    var ss, ks, x := ss1 + ss2[1..], ks1 + ks2, |ks1|;
    hide Init, Apply, Enabled, SerialStep;
    forall i | 0 <= i < |ks|
      ensures Enabled(ss[i], ks[i]) && ss[i + 1] == Apply(ss[i], ks[i]) && SerialStep(ss[i], ks[i])
    {
      if i < x {
        assert ss[i] == ss1[i] && ss[i + 1] == ss1[i + 1] && ks[i] == ks1[i];
      } else {
        assert ss[i] == ss2[i - x] && ss[i + 1] == ss2[i - x + 1] && ks[i] == ks2[i - x];
      }
    }
    forall i | x < i < |ss|
      ensures ss[i].max == ss1[x].max
    {
      StretchMax(ss2, ks2, i - x);
    }
  }

  lemma LeadsOn(s0: State, k: Step, s: State, s1: State, s2: State) returns (ss: seq<State>, ks: seq<Step>, x: nat)
    requires Init(s0) && Enabled(s0, k) && SerialStep(s0, k) && s == Apply(s0, k) && Leads(s, s1) && Leads(s1, s2)
    ensures IsSerialRun(ss, ks) && ss[0] == s0 && |ks| >= 1 && ks[0] == k && x <= |ks| && ss[x] == s1 && ss[|ks|] == s2
    ensures forall i :: 1 <= i < |ss| ==> ss[i].max == s.max
  {
    hide Init, Apply, Enabled, SerialStep;
    var ss1, ks1 := LeadsToRun(s0, k, s, s1);
    var ss2, ks2 :| IsStretch(ss2, ks2) && ss2[0] == s1 && ss2[|ks2|] == s2;
    x := |ks1|;
    ss, ks := ss1 + ss2[1..], ks1 + ks2;
    Join(ss1, ks1, ss2, ks2);
    hide IsStretch, IsSerialRun;
  }

  lemma LetPileThrough(s: State, m: nat, h: nat, s1: State) returns (ss: seq<State>, ks: seq<Step>, x: nat)
    requires Init(s) && m >= 1 && Leads(Apply(s, SetMax(m)), s1) && Piled(s1, m, h) && |s1.threads| == h + 2 * m
    ensures IsSerialRun(ss, ks) && ss[0] == s && |ks| >= 1 && ks[0] == SetMax(m) && x <= |ks|
    ensures forall i :: 1 <= i < |ss| ==> ss[i].max == m
    ensures ss[|ks|].now == ss[x].now && Sum(HoldsToken, ss[x].threads) == h
    ensures Sum(Admitted, ss[x].log) == 0 && Sum(Admitted, ss[|ks|].log) == h + 2 * m
  {
    assert Apply(s, SetMax(m)).max == m;
    PiledHolds(s1, m, h);
    var s2 := LetAllThrough(s1, m, h);
    hide Leads, Piled, Apply, Init;
    ss, ks, x := LeadsOn(s, SetMax(m), Apply(s, SetMax(m)), s1, s2);
  }

  lemma LetThroughAfter(s: State, m: nat, k: nat, s1: State) returns (ss: seq<State>, ks: seq<Step>, x: nat)
    requires Init(s) && m >= 1 && Leads(Apply(s, SetMax(m)), s1) && Piled(s1, m, 0)
    requires |s1.threads| == Pile(m, k) + 2 * m
    ensures IsSerialRun(ss, ks) && ss[0] == s && |ks| >= 1 && ks[0] == SetMax(m) && x <= |ks|
    ensures forall i :: 1 <= i < |ss| ==> ss[i].max == m
    ensures ss[|ks|].now == ss[x].now && Sum(HoldsToken, ss[x].threads) == Pile(m, k)
    ensures Sum(Admitted, ss[x].log) == 0 && Sum(Admitted, ss[|ks|].log) == Pile(m, k) + 2 * m
  {
    hide Leads, Piled, Apply, Init, Pile, IsSerialRun;
    var s2 := PileUp(Apply(s, SetMax(m)), s1, m, 0, k);
    ss, ks, x := LetPileThrough(s, m, Pile(m, k), s2);
  }

  // Tokens can pile up: for every MAX and every k, a run in which k * MAX threads hold one, and
  // (k + 2) * MAX calls are then let through at one time. No multiple of MAX bounds the calls
  // of a period, and the bound by those held is attained.
  lemma LetThroughAttained(s: State, m: nat, k: nat) returns (ss: seq<State>, ks: seq<Step>, x: nat)
    requires Init(s) && m >= 1 && |s.threads| == (k + 2) * m
    ensures IsSerialRun(ss, ks) && ss[0] == s && |ks| >= 1 && ks[0] == SetMax(m) && x <= |ks|
    ensures forall i :: 1 <= i < |ss| ==> ss[i].max == m
    ensures ss[|ks|].now == ss[x].now && Sum(HoldsToken, ss[x].threads) == k * m
    ensures Sum(Admitted, ss[x].log) == 0 && Sum(Admitted, ss[|ks|].log) == (k + 2) * m
  {
    PileIsProduct(m, k);
    var s2 := FirstEpoch(s, m);
    ss, ks, x := LetThroughAfter(s, m, k, s2);
  }

  // ---------------------------------------------------------------- overlapping on/off

  // On, at rest, and no epoch will ever come.
  predicate Dead(s: State)
  {
    s.on && AllRest(s) && s.timer == None && s.handler == Quiet
  }

  lemma RunOn(ss: seq<State>, ks: seq<Step>, k: Step) returns (ss': seq<State>, ks': seq<Step>)
    requires IsRun(ss, ks) && Enabled(ss[|ks|], k)
    ensures IsRun(ss', ks') && |ss'| == |ks'| + 1 && ss'[0] == ss[0] && ss'[|ks'|] == Apply(ss[|ks|], k)
  {
    ss', ks' := ss + [Apply(ss[|ks|], k)], ks + [k];
    hide Apply, Enabled;
    forall i | 0 <= i < |ks'|
      ensures Enabled(ss'[i], ks'[i]) && ss'[i + 1] == Apply(ss'[i], ks'[i])
    {
      if i < |ks| {
        assert ss'[i] == ss[i] && ss'[i + 1] == ss[i + 1] && ks'[i] == ks[i];
      }
    }
  }

  // The steps of a whole switch-off.
  lemma SwitchOffNow(ss: seq<State>, ks: seq<Step>, c: nat) returns (ss': seq<State>, ks': seq<Step>)
    requires IsRun(ss, ks) && c < |ss[|ks|].ctls| && ss[|ks|].ctls[c] == Rest
    requires ss[|ks|].on && ss[|ks|].handler == Quiet
    ensures IsRun(ss', ks') && |ss'| == |ks'| + 1 && ss'[0] == ss[0]
    ensures var s, s' := ss[|ks|], ss'[|ks'|];
            !s'.on && s'.ctls == s.ctls && s'.handler == Quiet && s'.timer == None
  {
    hide IsRun;
    ss', ks' := RunOn(ss, ks, SwitchOff(c));
    ss', ks' := RunOn(ss', ks', Control(c));
    ss', ks' := RunOn(ss', ks', Control(c));
    ss', ks' := RunOn(ss', ks', Control(c));
    ss', ks' := RunOn(ss', ks', Control(c));
  }

  // A switch-on that slips between the flag test and the timer deletion of a switch-off
  // leaves the monitor on without a timer.
  lemma OverlapKillsTimer(s: State) returns (ks: seq<Step>, ss: seq<State>)
    requires Init(s) && |s.ctls| == 2
    ensures IsRun(ss, ks) && ss[0] == s && Dead(ss[|ks|]) && Lost(ss, ks, |ks|)
  {
    assert IsRun([s], []);
    hide IsRun;
    ss, ks := RunOn([s], [], SwitchOff(0));
    ss, ks := RunOn(ss, ks, SwitchOn(1));
    ss, ks := RunOn(ss, ks, Control(1));
    ss, ks := RunOn(ss, ks, Control(1));
    ss, ks := RunOn(ss, ks, Control(0));
    ss, ks := RunOn(ss, ks, Control(0));
    ss, ks := RunOn(ss, ks, Control(0));
    ss, ks := RunOn(ss, ks, Control(0));
    TimerIffNotLost(ss, ks, |ks|);
  }

  // A switch-on that a switch-off overtakes leaves a monitor that is off with its timer armed.
  lemma OverlapStraysTimer(s: State) returns (ks: seq<Step>, ss: seq<State>)
    requires Init(s) && |s.ctls| == 2
    ensures IsRun(ss, ks) && ss[0] == s
    ensures !ss[|ks|].on && AllRest(ss[|ks|]) && ss[|ks|].timer.Some? && Stray(ss, ks, |ks|)
  {
    assert IsRun([s], []);
    ss, ks := SwitchOffNow([s], [], 0);
    ss, ks := RunOn(ss, ks, SwitchOn(0));
    ss, ks := SwitchOffNow(ss, ks, 1);
    ss, ks := RunOn(ss, ks, Control(0));
    ss, ks := RunOn(ss, ks, Control(0));
    TimerIffNotLost(ss, ks, |ks|);
  }

  // From a lost timer on no token is ever added until somebody switches the monitor again.
  lemma {:induction false} DeadForever(ss: seq<State>, ks: seq<Step>, i: nat)
    requires IsPath(ss, ks) && Dead(ss[0]) && i < |ss|
    requires forall j :: 0 <= j < |ks| ==> !ks[j].SwitchOn? && !ks[j].SwitchOff?
    ensures Dead(ss[i]) && ss[i].tokens + Sum(Granted, ss[i].log) == ss[0].tokens + Sum(Granted, ss[0].log)
  {
    if i > 0 {
      DeadForever(ss, ks, i - 1);
      LogSum(Granted, ss[i - 1], ks[i - 1]);
    }
  }
}
