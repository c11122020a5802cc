// Invariants of every run of the admission protocol, whatever on/off operations overlap.
module ThrottleSafety {
  import opened Sums
  import opened Throttle
  import MovingAverage

  // ---------------------------------------------------------------- blocked counter

  predicate BlockedOk(s: State)
  {
    s.blocked == Sum(Waiting, s.threads)
  }

  predicate Touches(k: Step)
  {
    k.Call? || k.Run? || k.Signal?
  }

  predicate Wakes(s: State, k: Step)
    requires Enabled(s, k)
  {
    (k.Handle? && s.handler == HWake) || (k.Control? && s.ctls[k.c] == OffWake)
  }

  // What a step can do to the threads: move one, wake all, or nothing.
  lemma ThreadsFrame(s: State, k: Step)
    requires Enabled(s, k)
    ensures var threads := Apply(s, k).threads;
            && |threads| == |s.threads|
            && (Touches(k) ==> threads == s.threads[k.t := threads[k.t]])
            && (!Touches(k) ==> threads == if Wakes(s, k) then WakeAll(s.threads) else s.threads)
  {
  }

  // The sum of a measure that wake-ups do not change moves with the moved thread.
  lemma ThreadSum(f: Thread -> int, s: State, k: Step)
    requires Enabled(s, k)
    requires forall th :: f(Woken(th)) == f(th)
    ensures var threads := Apply(s, k).threads;
            && |threads| == |s.threads|
            && Sum(f, threads) == Sum(f, s.threads) + if Touches(k) then f(threads[k.t]) - f(s.threads[k.t]) else 0
  {
    ThreadsFrame(s, k);
    if Touches(k) {
      SumUpdate(f, s.threads, k.t, Apply(s, k).threads[k.t]);
    } else {
      SumSame(f, WakeAll(s.threads), f, s.threads);
    }
  }

  lemma WaitingMove(s: State, th: Thread, need: bool, found: bool)
    ensures Waiting(Advance(s, th, need, found)) == Waiting(th) + BlockedChange(th.pc)
  {
  }

  lemma BlockedStep(s: State, k: Step)
    requires BlockedOk(s) && Enabled(s, k)
    ensures BlockedOk(Apply(s, k))
  {
    ThreadSum(Waiting, s, k);
    if k.Run? {
      WaitingMove(s, s.threads[k.t], k.need, k.found);
    }
  }

  // ---------------------------------------------------------------- token conservation

  function Granted(e: Event): int { if e.Grant? then 1 else 0 }

  function Refilled(e: Event): int { if e.Refill? then e.n else 0 }

  function Refills(e: Event): int { if e.Refill? then 1 else 0 }

  // Grants after the last refill, and the value that refill wrote.
  function SinceRefill(log: seq<Event>): nat
  {
    if log == [] || log[|log| - 1].Refill? then 0
    else SinceRefill(log[..|log| - 1]) + Granted(log[|log| - 1])
  }

  function Budget(log: seq<Event>): int
  {
    if log == [] then INITIAL_BUDGET
    else if log[|log| - 1].Refill? then log[|log| - 1].n
    else Budget(log[..|log| - 1])
  }

  function HeldMax(h: Handler): int
  {
    match h
    case HSample(m) => m
    case HSum(m, _) => m
    case HPeak(m, _) => m
    case HPeakSet(m, _) => m
    case HAvg(m, _) => m
    case HAvgSet(m, _) => m
    case HRefill(m) => m
    case _ => 1
  }

  predicate TokensOk(s: State)
  {
    && s.max >= 1 && HeldMax(s.handler) >= 1
    && s.tokens >= 0
    && SinceRefill(s.log) + s.tokens == Budget(s.log)
    && (forall i :: 0 <= i < |s.log| && s.log[i].Refill? ==> s.log[i].n >= 1)
  }

  // Every step appends at most one event.
  lemma LogGrows(s: State, k: Step)
    requires Enabled(s, k)
    ensures var log := Apply(s, k).log;
            log == s.log
            || (|log| == |s.log| + 1 && log[..|s.log|] == s.log && log[|s.log|].at == s.now)
  {
  }

  lemma TokensStep(s: State, k: Step)
    requires TokensOk(s) && Enabled(s, k)
    ensures TokensOk(Apply(s, k))
  {
    LogGrows(s, k);
  }

  // ---------------------------------------------------------------- wait queue

  // Some step has set the condition and still owes its wake-up.
  predicate Debt(s: State)
  {
    s.handler == HWake || exists c :: 0 <= c < |s.ctls| && s.ctls[c] == OffWake
  }

  predicate InWaitLoop(pc: Pc)
  {
    match pc
    case WaitMon(queue) => queue
    case WaitTok(queue) => queue
    case Park => true
    case Asleep => true
    case Dequeue => true
    case _ => false
  }

  // A sleeper (queued and not yet woken) that has found its condition, or its first
  // half, false in this round is owed a wake-up once the condition holds.
  predicate QueueOk(on: bool, tokens: int, debt: bool, th: Thread)
  {
    && (th.sleepy ==> th.queued && InWaitLoop(th.pc))
    && (th.queued ==> InWaitLoop(th.pc) || th.pc.Enqueue?)
    && (th.intr && InWaitLoop(th.pc) ==> !th.queued)
    && (th.sleepy && th.pc.WaitTok? && !on ==> debt)
    && (th.sleepy && (th.pc.Park? || th.pc.Asleep?) && (!on || tokens > 0) ==> debt)
  }

  predicate QueuesOk(s: State)
  {
    forall t :: 0 <= t < |s.threads| ==> QueueOk(s.on, s.tokens, Debt(s), s.threads[t])
  }

  lemma QueueMove(s: State, th: Thread, need: bool, found: bool, debt: bool)
    requires QueueOk(s.on, s.tokens, debt, th)
    requires th.pc.Asleep? ==> !th.sleepy
    ensures QueueOk(s.on, s.tokens, debt, Advance(s, th, need, found))
  {
  }

  lemma DebtStep(s: State, k: Step)
    requires Enabled(s, k) && Debt(s)
    requires !Wakes(s, k)
    ensures Debt(Apply(s, k))
  {
    if s.handler != HWake {
      var c :| 0 <= c < |s.ctls| && s.ctls[c] == OffWake;
      assert Apply(s, k).ctls[c] == OffWake;
    }
  }

  lemma QueuesStep(s: State, k: Step)
    requires Enabled(s, k) && TokensOk(s) && QueuesOk(s)
    ensures QueuesOk(Apply(s, k))
  {
    var s' := Apply(s, k);
    ThreadsFrame(s, k);
    if Debt(s) && !Wakes(s, k) {
      DebtStep(s, k);
    }
    if k.SwitchOff? && s.on {
      assert s'.ctls[k.c] == OffWake;
    }
    forall t | 0 <= t < |s'.threads|
      ensures QueueOk(s'.on, s'.tokens, Debt(s'), s'.threads[t])
    {
      assert QueueOk(s.on, s.tokens, Debt(s), s.threads[t]);
      if k.Run? && k.t == t {
        QueueMove(s, s.threads[t], k.need, k.found, Debt(s));
      }
    }
  }

  // ---------------------------------------------------------------- one call

  function Waited(w: Wait): int { w.to - w.from }

  // In the admission loop or on the way out of it.
  predicate InLoop(pc: Pc)
  {
    !(pc.Idle? || pc.Entry? || pc.Lookup? || pc.Leave?)
  }

  // The start stamp of the wait in progress is set.
  predicate Stamped(pc: Pc)
  {
    (IsWaiting(pc) && !pc.Stamp?) || pc.AddDelay?
  }

  // At least one decrement was tried.
  predicate Tried(pc: Pc)
  {
    pc.TestOff? || pc.CountIn? || IsWaiting(pc) || pc.AddDelay?
    || (pc.Leave? && !pc.outcome.NotLookedUp? && !pc.outcome.Unmonitored?)
  }

  // No decrement was tried.
  predicate Untried(pc: Pc)
  {
    pc.Entry? || pc.Lookup? || (pc.Leave? && (pc.outcome.NotLookedUp? || pc.outcome.Unmonitored?))
  }

  // The history of a call against the clock `now`.
  predicate CallOk(now: nat, th: Thread)
  {
    && (!th.pc.Idle? ==> th.taken == if th.pc == Leave(Token) then 1 else 0)
    && (Tried(th.pc) ==> th.tries >= 1)
    && (Untried(th.pc) ==> th.tries == 0 && th.waits == [])
    && (th.pc == Leave(NotLookedUp) || th.pc.Entry? ==> !th.found)
    && WaitsOk(now, th)
  }

  predicate WaitsOk(now: nat, th: Thread)
  {
    && th.delay == Sum(Waited, th.waits)
    && LastEnd(th) <= now
    && (Stamped(th.pc) ==> LastEnd(th) <= th.start <= now)
    && (forall i :: 0 <= i < |th.waits| ==> th.entered <= th.waits[i].from <= th.waits[i].to)
    && (forall i, j :: 0 <= i < j < |th.waits| ==> th.waits[i].to <= th.waits[j].from)
  }

  // The end of the last completed wait of a call, or its start.
  function LastEnd(th: Thread): nat
  {
    if th.waits == [] then th.entered else th.waits[|th.waits| - 1].to
  }

  predicate CallsOk(s: State)
  {
    forall t :: 0 <= t < |s.threads| ==> CallOk(s.now, s.threads[t])
  }

  lemma PcMove(on: bool, tokens: int, th: Thread, need: bool)
    ensures var pc := NextPc(on, tokens, th, need);
            && (Stamped(pc) ==> Stamped(th.pc) || th.pc.Stamp?)
            && (Tried(pc) ==> Tried(th.pc) || th.pc.TryTake?)
            && (Untried(pc) ==> Untried(th.pc))
            && (pc == Leave(Token) <==> th.pc.TryTake? && tokens > 0)
            && (pc.Idle? <==> th.pc.Leave? || th.pc.Idle?)
            && (pc == Leave(NotLookedUp) ==> th.pc.Entry?)
            && !pc.Entry?
  {
  }

  lemma WaitsMove(s: State, th: Thread, need: bool, found: bool)
    requires WaitsOk(s.now, th)
    ensures WaitsOk(s.now, Advance(s, th, need, found))
  {
    PcMove(s.on, s.tokens, th, need);
    var th' := Advance(s, th, need, found);
    if th.pc.AddDelay? {
      SumAppend(Waited, th.waits, Wait(th.start, s.now));
      forall i | 0 <= i < |th.waits|
        ensures th.waits[i].to <= th.start
      {
        assert i < |th.waits| - 1 ==> th.waits[i].to <= th.waits[|th.waits| - 1].from;
      }
    } else {
      assert th'.waits == th.waits && th'.delay == th.delay;
    }
  }

  lemma CallMove(s: State, th: Thread, need: bool, found: bool)
    requires CallOk(s.now, th)
    ensures CallOk(s.now, Advance(s, th, need, found))
  {
    PcMove(s.on, s.tokens, th, need);
    WaitsMove(s, th, need, found);
  }

  lemma CallsStep(s: State, k: Step)
    requires Enabled(s, k) && CallsOk(s)
    ensures CallsOk(Apply(s, k))
  {
    var s' := Apply(s, k);
    ThreadsFrame(s, k);
    forall t | 0 <= t < |s'.threads|
      ensures CallOk(s'.now, s'.threads[t])
    {
      assert CallOk(s.now, s.threads[t]);
      if k.Run? && k.t == t {
        CallMove(s, s.threads[t], k.need, k.found);
      }
    }
  }

  // ---------------------------------------------------------------- admissions

  function Admitted(e: Event): int { if e.Returned? && e.outcome == Token then 1 else 0 }

  function HoldsToken(th: Thread): int { if th.pc == Leave(Token) then 1 else 0 }

  function Skipped(e: Event): int { if e.Bypassed? then 1 else 0 }

  function ReturnedBypass(e: Event): int { if e.Returned? && e.outcome == Bypass then 1 else 0 }

  function IsBypassing(th: Thread): int { if th.pc == Leave(Bypass) then 1 else 0 }

  predicate AdmissionsOk(s: State)
  {
    && Sum(Granted, s.log) == Sum(Admitted, s.log) + Sum(HoldsToken, s.threads)
    && Sum(Skipped, s.log) == Sum(ReturnedBypass, s.log) + Sum(IsBypassing, s.threads)
  }

  // The change of a log measure in one step.
  function Gain(f: Event -> int, s: State, k: Step): int
    requires Enabled(s, k)
  {
    var log := Apply(s, k).log;
    if |log| > |s.log| then f(log[|s.log|]) else 0
  }

  lemma LogSum(f: Event -> int, s: State, k: Step)
    requires Enabled(s, k)
    ensures Sum(f, Apply(s, k).log) == Sum(f, s.log) + Gain(f, s, k)
  {
    LogGrows(s, k);
    var log := Apply(s, k).log;
    if log != s.log {
      assert log == s.log + [log[|s.log|]];
      SumAppend(f, s.log, log[|s.log|]);
    }
  }

  lemma AdmissionsDelta(s: State, k: Step)
    requires Enabled(s, k)
    ensures |Apply(s, k).threads| == |s.threads|
    ensures var d := if Touches(k) then HoldsToken(Apply(s, k).threads[k.t]) - HoldsToken(s.threads[k.t]) else 0;
            Gain(Granted, s, k) == Gain(Admitted, s, k) + d
    ensures var d := if Touches(k) then IsBypassing(Apply(s, k).threads[k.t]) - IsBypassing(s.threads[k.t]) else 0;
            Gain(Skipped, s, k) == Gain(ReturnedBypass, s, k) + d
  {
  }

  lemma AdmissionsStep(s: State, k: Step)
    requires Enabled(s, k) && AdmissionsOk(s)
    ensures AdmissionsOk(Apply(s, k))
  {
    LogSum(Granted, s, k);
    LogSum(Admitted, s, k);
    LogSum(Skipped, s, k);
    LogSum(ReturnedBypass, s, k);
    ThreadSum(HoldsToken, s, k);
    ThreadSum(IsBypassing, s, k);
    AdmissionsDelta(s, k);
  }

  // Grants and the tokens left never exceed what was ever written.
  predicate TotalOk(s: State)
  {
    Sum(Granted, s.log) + s.tokens <= INITIAL_BUDGET + Sum(Refilled, s.log)
  }

  lemma TotalDelta(s: State, k: Step)
    requires Enabled(s, k) && s.tokens >= 0
    ensures Gain(Granted, s, k) + Apply(s, k).tokens <= s.tokens + Gain(Refilled, s, k)
  {
    if k.Handle? && s.handler.HRefill? {
      assert Apply(s, k).log[|s.log|] == Refill(s.now, s.handler.max);
    }
  }

  lemma TotalStep(s: State, k: Step)
    requires Enabled(s, k) && TokensOk(s) && TotalOk(s)
    ensures TotalOk(Apply(s, k))
  {
    LogSum(Granted, s, k);
    LogSum(Refilled, s, k);
    TotalDelta(s, k);
  }

  // ---------------------------------------------------------------- statistics

  // The true numbers of blocked threads at the handler firings, oldest first.
  function Samples(log: seq<Event>): seq<nat>
  {
    if log == [] then []
    else
      var last := log[|log| - 1];
      Samples(log[..|log| - 1]) + if last.Sample? then [last.blocked] else []
  }

  function Itself(n: nat): int { n }

  // The samples already folded into a statistic: the handler may still owe the last one.
  function Folded(samples: seq<nat>, owed: bool): seq<nat>
    requires owed ==> samples != []
  {
    if owed then samples[..|samples| - 1] else samples
  }

  predicate OwesPeak(h: Handler) { h.HSum? || h.HPeak? || h.HPeakSet? }

  predicate OwesAverage(h: Handler) { OwesPeak(h) || h.HAvg? || h.HAvgSet? }

  // What the handler holds between its sample and its writes.
  predicate HeldOk(h: Handler, peak: nat, xs: seq<nat>)
  {
    && (OwesAverage(h) ==> xs != [])
    && (h.HSum? || h.HPeak? || h.HPeakSet? || h.HAvg? ==> h.b == xs[|xs| - 1])
    && (h.HPeakSet? ==> h.b > peak)
    && (h.HAvgSet? ==> h.next == MovingAverage.Average(xs))
  }

  predicate StatsHold(h: Handler, sum: nat, peak: nat, avg: nat, xs: seq<nat>)
  {
    && HeldOk(h, peak, xs)
    && sum == Sum(Itself, Folded(xs, h.HSum?))
    && peak == MovingAverage.Peak(Folded(xs, OwesPeak(h)))
    && avg == MovingAverage.Average(Folded(xs, OwesAverage(h)))
  }

  predicate StatsOk(s: State)
  {
    StatsHold(s.handler, s.sum, s.peak, s.avg, Samples(s.log))
  }

  lemma SamplesStep(s: State, k: Step)
    requires Enabled(s, k)
    ensures Samples(Apply(s, k).log)
         == if k.Handle? && s.handler.HSample? then Samples(s.log) + [Blocked(s.threads)] else Samples(s.log)
  {
    LogGrows(s, k);
    var log := Apply(s, k).log;
    if log != s.log {
      assert log == s.log + [log[|s.log|]];
      assert Samples(s.log) + [] == Samples(s.log);
    }
  }

  // Taking the sample makes the three statistics owe it; each write pays one of them.
  lemma StatsSample(m: int, b: nat, sum: nat, peak: nat, avg: nat, xs: seq<nat>)
    requires StatsHold(HSample(m), sum, peak, avg, xs)
    ensures StatsHold(HSum(m, b), sum, peak, avg, xs + [b])
  {
    assert Folded(xs + [b], true) == xs;
  }

  lemma StatsPay(h: Handler, peak: nat, xs: seq<nat>)
    requires HeldOk(h, peak, xs) && OwesAverage(h)
    ensures var ys, b := Folded(xs, true), xs[|xs| - 1];
            && Sum(Itself, xs) == Sum(Itself, ys) + b
            && MovingAverage.Peak(xs) == (if b > MovingAverage.Peak(ys) then b else MovingAverage.Peak(ys))
            && MovingAverage.Average(xs) == MovingAverage.AverageStep(MovingAverage.Average(ys), b)
  {
  }

  lemma StatsWrite(s: State, xs: seq<nat>)
    requires StatsHold(s.handler, s.sum, s.peak, s.avg, xs)
    requires !s.handler.HSample?
    ensures var s' := RunHandler(s);
            StatsHold(s'.handler, s'.sum, s'.peak, s'.avg, xs)
  {
    if OwesAverage(s.handler) {
      StatsPay(s.handler, s.peak, xs);
    }
  }

  lemma StatsStep(s: State, k: Step)
    requires Enabled(s, k) && BlockedOk(s) && StatsOk(s)
    ensures StatsOk(Apply(s, k))
  {
    var xs := Samples(s.log);
    SamplesStep(s, k);
    if k.Handle? && s.handler.HSample? {
      StatsSample(s.handler.max, Blocked(s.threads), s.sum, s.peak, s.avg, xs);
      assert Unsigned(s.blocked) == Blocked(s.threads);
    } else if k.Handle? {
      StatsWrite(s, xs);
    } else {
      StatsUntouched(s, k);
    }
    hide StatsHold, Samples;
  }

  lemma StatsUntouched(s: State, k: Step)
    requires Enabled(s, k) && !k.Handle?
    ensures var s' := Apply(s, k);
            && s'.sum == s.sum && s'.peak == s.peak && s'.avg == s.avg
            && forall xs :: StatsHold(s.handler, s.sum, s.peak, s.avg, xs) ==>
                 StatsHold(s'.handler, s'.sum, s'.peak, s'.avg, xs)
  {
  }

  // ---------------------------------------------------------------- every run

  predicate Inv(s: State)
  {
    && s.hz >= 1
    && BlockedOk(s) && TokensOk(s) && TotalOk(s) && QueuesOk(s) && CallsOk(s) && AdmissionsOk(s) && StatsOk(s)
  }

  lemma InvInit(s: State)
    requires Init(s)
    ensures Inv(s)
  {
    SumZero(Waiting, s.threads);
    SumZero(HoldsToken, s.threads);
    SumZero(IsBypassing, s.threads);
  }

  lemma InvStep(s: State, k: Step)
    requires Inv(s) && Enabled(s, k)
    ensures Inv(Apply(s, k))
  {
    BlockedStep(s, k);
    TokensStep(s, k);
    TotalStep(s, k);
    QueuesStep(s, k);
    CallsStep(s, k);
    AdmissionsStep(s, k);
    StatsStep(s, k);
  }

  lemma {:induction false} InvPath(ss: seq<State>, ks: seq<Step>, i: nat)
    requires IsPath(ss, ks) && Inv(ss[0]) && i < |ss|
    ensures Inv(ss[i])
  {
    if i > 0 {
      InvPath(ss, ks, i - 1);
      InvStep(ss[i - 1], ks[i - 1]);
    }
  }

  lemma InvRun(ss: seq<State>, ks: seq<Step>, i: nat)
    requires IsRun(ss, ks) && i < |ss|
    ensures Inv(ss[i])
  {
    InvInit(ss[0]);
    InvPath(ss, ks, i);
  }

  // ---------------------------------------------------------------- main results

  // Tokens are conserved whatever happens to MAX between the handler's read and its write.
  lemma TokenConservation(ss: seq<State>, ks: seq<Step>, i: nat)
    requires IsRun(ss, ks) && i < |ss|
    ensures ss[i].tokens >= 0 && ss[i].max >= 1
    ensures SinceRefill(ss[i].log) + ss[i].tokens == Budget(ss[i].log)
    ensures Sum(Granted, ss[i].log) <= INITIAL_BUDGET + Sum(Refilled, ss[i].log)
  {
    InvRun(ss, ks, i);
  }

  // A sleeper whose condition holds is owed a wake-up that some enabled step delivers.
  lemma NoLostWakeUp(ss: seq<State>, ks: seq<Step>, i: nat, t: nat) returns (k: Step)
    requires IsRun(ss, ks) && i < |ss| && t < |ss[i].threads|
    requires var th := ss[i].threads[t]; th.queued && th.sleepy && (th.pc == Park || th.pc == Asleep)
    requires !ss[i].on || ss[i].tokens > 0
    ensures Enabled(ss[i], k) && Wakes(ss[i], k)
    ensures var th := Apply(ss[i], k).threads[t]; !th.queued && !th.sleepy && Enabled(Apply(ss[i], k), Run(t, false, false))
  {
    InvRun(ss, ks, i);
    var s := ss[i];
    assert QueueOk(s.on, s.tokens, Debt(s), s.threads[t]);
    if s.handler == HWake {
      k := Handle;
    } else {
      var c :| 0 <= c < |s.ctls| && s.ctls[c] == OffWake;
      k := Control(c);
    }
    ThreadsFrame(s, k);
  }

  // Every call leaves the loop with exactly one token, or by a bypass or -EINTR with none;
  // tokens taken are the token-admitted calls, those returned and those about to.
  lemma AdmissionAccounting(ss: seq<State>, ks: seq<Step>, i: nat)
    requires IsRun(ss, ks) && i < |ss|
    ensures forall t :: 0 <= t < |ss[i].threads| && ss[i].threads[t].pc.Leave? ==>
              var th := ss[i].threads[t];
              && th.taken == (if th.pc.outcome == Token then 1 else 0)
              && (th.pc.outcome in {Bypass, Interrupted, Token} ==> th.tries >= 1)
              && (th.pc.outcome in {NotLookedUp, Unmonitored} ==> th.tries == 0 && th.waits == [] && th.delay == 0)
    ensures Sum(Granted, ss[i].log) == Sum(Admitted, ss[i].log) + Sum(HoldsToken, ss[i].threads)
    ensures Sum(Skipped, ss[i].log) == Sum(ReturnedBypass, ss[i].log) + Sum(IsBypassing, ss[i].threads)
  {
    InvRun(ss, ks, i);
    forall t | 0 <= t < |ss[i].threads|
      ensures CallOk(ss[i].now, ss[i].threads[t])
    {
    }
  }

  // While the monitor stays on, nobody bypasses it.
  lemma {:induction false} NoBypassWhileOn(ss: seq<State>, ks: seq<Step>)
    requires IsPath(ss, ks)
    requires forall i :: 0 <= i < |ss| ==> ss[i].on
    ensures Sum(Skipped, ss[|ks|].log) == Sum(Skipped, ss[0].log)
  {
    if ks != [] {
      var n := |ks| - 1;
      LogSum(Skipped, ss[n], ks[n]);
      NoSkipWhileOn(ss[n], ks[n]);
      hide Apply, Enabled, Gain;
      assert IsPath(ss[..n + 1], ks[..n]);
      NoBypassWhileOn(ss[..n + 1], ks[..n]);
    }
  }

  lemma NoSkipWhileOn(s: State, k: Step)
    requires Enabled(s, k) && s.on
    ensures Gain(Skipped, s, k) == 0
  {
  }

  // The blocked counter and the three statistics are exact.
  lemma StatisticsExact(ss: seq<State>, ks: seq<Step>, i: nat)
    requires IsRun(ss, ks) && i < |ss|
    ensures ss[i].blocked == Sum(Waiting, ss[i].threads)
    ensures var xs := Samples(ss[i].log);
            ss[i].handler == Quiet ==>
              && ss[i].sum == Sum(Itself, xs)
              && ss[i].peak == MovingAverage.Peak(xs)
              && ss[i].avg == MovingAverage.Average(xs)
  {
    InvRun(ss, ks, i);
  }

  // A call's accumulated delay is the total of its disjoint waits, so it fits in the call.
  lemma DelayIsTotalWait(ss: seq<State>, ks: seq<Step>, i: nat, t: nat)
    requires IsRun(ss, ks) && i < |ss| && t < |ss[i].threads|
    ensures var th := ss[i].threads[t];
            && th.delay == Sum(Waited, th.waits)
            && (forall a, b :: 0 <= a < b < |th.waits| ==> th.waits[a].to <= th.waits[b].from)
            && 0 <= th.delay <= ss[i].now - th.entered
  {
    InvRun(ss, ks, i);
    var th := ss[i].threads[t];
    assert CallOk(ss[i].now, th);
    WaitsFit(th.entered, th.waits);
  }

  lemma {:induction false} WaitsFit(from: nat, waits: seq<Wait>)
    requires forall i :: 0 <= i < |waits| ==> from <= waits[i].from <= waits[i].to
    requires forall i, j :: 0 <= i < j < |waits| ==> waits[i].to <= waits[j].from
    ensures 0 <= Sum(Waited, waits)
    ensures waits != [] ==> Sum(Waited, waits) <= waits[|waits| - 1].to - from
  {
    if waits != [] {
      WaitsFit(from, waits[..|waits| - 1]);
    }
  }
}
