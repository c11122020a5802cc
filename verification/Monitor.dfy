// The monitor's globals as the module keeps them: the epoch handler and its timer
// (src/throttling_hidden.c) and the control calls (src/throttling_api.c:300-393), each
// run without interference. The clock is a parameter.
module Monitor {
  import opened Wrappers
  import opened Errno
  import opened Sums
  import Throttle
  import ThrottleWitness
  import MovingAverage

  // The values of the globals; `sleepers` are the entries a wake-up would wake.
  datatype Core = Core(
    on: bool, max: int, tokens: int, blocked: nat,
    sum: nat, peak: nat, avg: nat, startTime: nat, elapsed: int,
    timer: Option<nat>, sleepers: set<nat>)

  datatype ThreadStats = ThreadStats(kind: int, mean: nat, sum: nat, elapsed: int, peak: nat)

  function EpochCore(c: Core, now: nat, hz: nat): Core
  {
    if !c.on then c
    else c.(sum := c.sum + c.blocked,
            peak := if c.blocked > c.peak then c.blocked else c.peak,
            avg := MovingAverage.AverageStep(c.avg, c.blocked),
            tokens := c.max,
            sleepers := {},
            timer := Some(now + hz))
  }

  function OnCore(c: Core, now: nat, hz: nat): Core
  {
    if c.on then c else c.(on := true, startTime := now, timer := Some(now + hz))
  }

  function OffCore(c: Core, now: nat): Core
  {
    if !c.on then c else c.(on := false, sleepers := {}, elapsed := now - c.startTime, timer := None)
  }

  // What a type-0 request reports as time on.
  function ReportedElapsed(c: Core, now: nat): int
  {
    c.elapsed + if c.on then now - c.startTime else 0
  }

  class EpochState {
    var isMonitorActive: bool
    var maxSyscallsPerSec: int
    var currSyscalls: int
    var blockedThread: nat
    var sumBlocked: nat
    var peakBlocked: nat
    var exponential: nat
    var startTime: nat
    var elapsed: int
    var epochTimer: Option<nat>
    var waitQueue: set<nat>

    function View(): Core
      reads this
    {
      Core(isMonitorActive, maxSyscallsPerSec, currSyscalls, blockedThread, sumBlocked, peakBlocked,
           exponential, startTime, elapsed, epochTimer, waitQueue)
    }

    // The static initialisers and core_setup at load time.
    constructor (jiffies: nat, hz: nat)
      ensures View() == Core(true, 3, 3, 0, 0, 0, 0, jiffies, 0, Some(jiffies + hz), {})
    {
      isMonitorActive, maxSyscallsPerSec, currSyscalls, blockedThread := true, 3, 3, 0;
      sumBlocked, peakBlocked, exponential := 0, 0, 0;
      startTime, elapsed, epochTimer, waitQueue := jiffies, 0, Some(jiffies + hz), {};
    }

    method EpochHandler(jiffies: nat, hz: nat)
      modifies this
      ensures View() == EpochCore(old(View()), jiffies, hz)
      ensures !old(isMonitorActive) ==> View() == old(View())
      ensures old(isMonitorActive) ==> isMonitorActive && currSyscalls == maxSyscallsPerSec == old(maxSyscallsPerSec)
      ensures old(isMonitorActive) ==> waitQueue == {} && epochTimer == Some(jiffies + hz)
      ensures unchanged(`blockedThread) && unchanged(`startTime) && unchanged(`elapsed)
    {
      if !isMonitorActive {
        return;
      }
      var max := maxSyscallsPerSec;
      var currBlocked := blockedThread;
      sumBlocked := sumBlocked + currBlocked;
      if currBlocked > peakBlocked {
        peakBlocked := currBlocked;
      }
      currBlocked := currBlocked * 1024;
      var temp := exponential;
      if temp == 0 {
        exponential := currBlocked;
      } else {
        temp := temp - temp / 4 + currBlocked / 4;
        exponential := temp;
      }
      currSyscalls := max;
      waitQueue := {};
      epochTimer := Some(jiffies + hz);
    }

    method CoreSetup(jiffies: nat, hz: nat)
      modifies this
      ensures View() == old(View()).(startTime := jiffies, timer := Some(jiffies + hz))
    {
      startTime := jiffies;
      epochTimer := Some(jiffies + hz);
    }

    method CoreCleanup()
      modifies this
      ensures View() == old(View()).(timer := None)
    {
      epochTimer := None;
    }

    method SwitchOnMonitor(jiffies: nat, hz: nat) returns (r: int)
      modifies this
      ensures View() == OnCore(old(View()), jiffies, hz)
      ensures old(isMonitorActive) ==> View() == old(View()) && r == -114
      ensures !old(isMonitorActive) ==> isMonitorActive && startTime == jiffies && epochTimer == Some(jiffies + hz) && r == 0
      ensures unchanged(`maxSyscallsPerSec) && unchanged(`currSyscalls) && unchanged(`blockedThread) && unchanged(`elapsed)
      ensures unchanged(`sumBlocked) && unchanged(`peakBlocked) && unchanged(`exponential) && unchanged(`waitQueue)
    {
      if isMonitorActive {
        return EALREADY;
      }
      isMonitorActive := true;
      CoreSetup(jiffies, hz);
      return 0;
    }

    method SwitchOffMonitor(jiffies: nat) returns (r: int)
      modifies this
      ensures View() == OffCore(old(View()), jiffies)
      ensures !old(isMonitorActive) ==> View() == old(View()) && r == -114
      ensures old(isMonitorActive) ==> !isMonitorActive && waitQueue == {} && epochTimer == None && r == 0
      ensures old(isMonitorActive) ==> elapsed == jiffies - old(startTime)
      ensures unchanged(`maxSyscallsPerSec) && unchanged(`currSyscalls) && unchanged(`blockedThread) && unchanged(`startTime)
      ensures unchanged(`sumBlocked) && unchanged(`peakBlocked) && unchanged(`exponential)
    {
      if !isMonitorActive {
        return EALREADY;
      }
      isMonitorActive := false;
      waitQueue := {};
      elapsed := jiffies - startTime;
      CoreCleanup();
      return 0;
    }

    method SetMaxSyscall(newMax: int) returns (r: int)
      modifies this
      ensures View() == if newMax <= 0 then old(View()) else old(View()).(max := newMax)
      ensures r == if newMax <= 0 then -22 else 0
    {
      if newMax <= 0 {
        return EINVAL;
      }
      maxSyscallsPerSec := newMax;
      return 0;
    }

    method GetThreadStats(kind: int, jiffies: nat) returns (r: ThreadStats)
      ensures kind == 1 ==> r == ThreadStats(1, exponential, 0, 0, 0)
      ensures kind != 1 ==> r == ThreadStats(0, 0, sumBlocked, ReportedElapsed(View(), jiffies), peakBlocked)
    {
      if kind == 1 {
        return ThreadStats(1, exponential, 0, 0, 0);
      }
      var temp := elapsed;
      if isMonitorActive {
        temp := temp + (jiffies - startTime);
      }
      return ThreadStats(0, 0, sumBlocked, temp, peakBlocked);
    }
  }

  // ---------------------------------------------------------------- against the step relation

  function CoreOf(s: Throttle.State): Core
  {
    Core(s.on, s.max, s.tokens, Throttle.Unsigned(s.blocked), s.sum, s.peak, s.avg, s.startTime, s.elapsed, s.timer,
         set t | 0 <= t < |s.threads| && s.threads[t].queued && s.threads[t].sleepy)
  }

  lemma WakeEmptiesQueue(s: Throttle.State)
    ensures CoreOf(s.(threads := Throttle.WakeAll(s.threads))).sleepers == {}
  {
  }

  // The handler's steps in a row, and the handler run in one go, have the same effect: none, if
  // it finds the monitor off.
  lemma HandlerRefines(s0: Throttle.State, s: Throttle.State)
    requires ThrottleWitness.Leads(s0, s) && s.handler == Throttle.HTest
    ensures exists s' :: ThrottleWitness.Leads(s0, s') && s'.handler == Throttle.Quiet
                         && CoreOf(s') == EpochCore(CoreOf(s), s.now, s.hz) && (!s.on ==> CoreOf(s') == CoreOf(s))
  {
    var s' := if s.on then ThrottleWitness.Epoch(s) else s.(handler := Throttle.Quiet);
    if s.on {
      ThrottleWitness.HandlerPass(s0, s);
      EpochIsCore(s);
    } else {
      assert s.log + [] == s.log;
      ThrottleWitness.HandleTo(s0, s, s');
    }
    hide ThrottleWitness.Leads, ThrottleWitness.Epoch;
    assert ThrottleWitness.Leads(s0, s') && CoreOf(s') == EpochCore(CoreOf(s), s.now, s.hz);
  }

  lemma EpochIsCore(s: Throttle.State)
    requires s.on
    ensures CoreOf(ThrottleWitness.Epoch(s)) == EpochCore(CoreOf(s), s.now, s.hz)
  {
    WakeEmptiesQueue(s);
  }

  // The steps of a switch-on taken in a row, and the call run in one go, have the same effect.
  // One that is refused is over with its first step, and changes nothing.
  lemma SwitchOnRefines(s: Throttle.State, c: nat)
    requires Throttle.Enabled(s, Throttle.SwitchOn(c))
    ensures s.on ==> Throttle.Apply(s, Throttle.SwitchOn(c)) == s && OnCore(CoreOf(s), s.now, s.hz) == CoreOf(s)
    ensures !s.on ==>
              var s1 := Throttle.Apply(s, Throttle.SwitchOn(c));
              && Throttle.Enabled(s1, Throttle.Control(c))
              && var s2 := Throttle.Apply(s1, Throttle.Control(c));
                 && Throttle.Enabled(s2, Throttle.Control(c))
                 && var s3 := Throttle.Apply(s2, Throttle.Control(c));
                    s3.ctls[c] == Throttle.Rest && CoreOf(s3) == OnCore(CoreOf(s), s.now, s.hz)
  {
  }

  // The handler run to its end, from wherever it is.
  function RunOut(s: Throttle.State): (r: Throttle.State)
    ensures r.handler == Throttle.Quiet && r.ctls == s.ctls && r.on == s.on && r.now == s.now
    ensures r.startTime == s.startTime && |r.threads| == |s.threads|
    decreases Throttle.HandlerRank(s.handler)
  {
    if s.handler == Throttle.Quiet then s else RunOut(Throttle.RunHandler(s))
  }

  // A switch-off taken in a row, and the call run in one go, have the same effect. It waits
  // for a handler that is running: what that still does comes first, and is nothing if the
  // handler had only fired. One that is refused changes nothing.
  lemma SwitchOffRefines(s: Throttle.State, c: nat)
    requires Throttle.Enabled(s, Throttle.SwitchOff(c))
    ensures !s.on ==> Throttle.Apply(s, Throttle.SwitchOff(c)) == s && OffCore(CoreOf(s), s.now) == CoreOf(s)
    ensures s.on ==>
              var s1 := Throttle.Apply(s, Throttle.SwitchOff(c));
              && Throttle.Enabled(s1, Throttle.Control(c))
              && var s2 := Throttle.Apply(s1, Throttle.Control(c));
                 && Throttle.Enabled(s2, Throttle.Control(c))
                 && var s3 := Throttle.Apply(s2, Throttle.Control(c));
                    && Throttle.Enabled(s3, Throttle.Control(c))
                    && var s4 := RunOut(Throttle.Apply(s3, Throttle.Control(c)));
                       && Throttle.Enabled(s4, Throttle.Control(c))
                       && var s5 := Throttle.Apply(s4, Throttle.Control(c));
                          && s5.ctls[c] == Throttle.Rest
                          && CoreOf(s5) == OffCore(CoreOf(if s.handler == Throttle.HTest then s else RunOut(s)), s.now)
  {
    if s.on {
      SwitchOffSteps(s, c);
      WokenCore(s, Offed(s, c));
      OffCommutes(s, Offed(s, c));
      hide RunOut, Offed;
      CancelCore(RunOut(Offed(s, c)), c);
    }
  }

  // After the flag, the wake-up and the reported time; the timer is still to be deleted.
  function Offed(s: Throttle.State, c: nat): Throttle.State
    requires c < |s.ctls|
  {
    s.(on := false, threads := Throttle.WakeAll(s.threads), elapsed := s.now - s.startTime,
       ctls := s.ctls[c := Throttle.OffCancel])
  }

  lemma SwitchOffSteps(s: Throttle.State, c: nat)
    requires Throttle.Enabled(s, Throttle.SwitchOff(c)) && s.on
    ensures var s1 := Throttle.Apply(s, Throttle.SwitchOff(c));
            && Throttle.Enabled(s1, Throttle.Control(c))
            && var s2 := Throttle.Apply(s1, Throttle.Control(c));
               && Throttle.Enabled(s2, Throttle.Control(c))
               && var s3 := Throttle.Apply(s2, Throttle.Control(c));
                  && Throttle.Enabled(s3, Throttle.Control(c)) && Throttle.Apply(s3, Throttle.Control(c)) == Offed(s, c)
  {
    var s1 := Throttle.Apply(s, Throttle.SwitchOff(c));
    assert s1 == s.(on := false, ctls := s.ctls[c := Throttle.OffWake]);
    var s2 := Throttle.Apply(s1, Throttle.Control(c));
    assert s2 == s1.(threads := Throttle.WakeAll(s.threads), ctls := s.ctls[c := Throttle.OffElapsed]);
    var s3 := Throttle.Apply(s2, Throttle.Control(c));
    assert s3 == s2.(ctls := s.ctls[c := Throttle.OffStore(s.now - s.startTime)]);
  }

  lemma WokenCore(s: Throttle.State, s1: Throttle.State)
    requires |s1.threads| == |s.threads| && s1.threads == Throttle.WakeAll(s.threads)
    ensures CoreOf(s1).sleepers == {}
  {
    WakeEmptiesQueue(s);
  }

  // The last step of a switch-off deletes the timer, and changes nothing else that counts.
  lemma CancelCore(s: Throttle.State, c: nat)
    requires c < |s.ctls| && s.ctls[c] == Throttle.OffCancel && s.handler == Throttle.Quiet
    ensures Throttle.Enabled(s, Throttle.Control(c))
    ensures var s' := Throttle.Apply(s, Throttle.Control(c));
            s'.ctls[c] == Throttle.Rest && CoreOf(s') == CoreOf(s).(timer := None)
  {
  }

  // Same but for the flag, the reported time, the controls and who is queued.
  predicate SameBut(s: Throttle.State, s1: Throttle.State)
  {
    && s1.hz == s.hz && s1.now == s.now && s1.tokens == s.tokens && s1.max == s.max && s1.blocked == s.blocked
    && s1.sum == s.sum && s1.peak == s.peak && s1.avg == s.avg && s1.startTime == s.startTime
    && s1.timer == s.timer && s1.handler == s.handler
    && |s1.threads| == |s.threads| && CoreOf(s1).sleepers == {}
  }

  // What the handler does past its test does not depend on the flag.
  lemma {:induction false} OffCommutes(s: Throttle.State, s1: Throttle.State)
    requires SameBut(s, s1) && s.on && !s1.on
    ensures s.handler != Throttle.HTest ==> SameBut(RunOut(s), RunOut(s1))
    ensures s.handler == Throttle.HTest ==> RunOut(s1) == s1.(handler := Throttle.Quiet)
    ensures RunOut(s1).elapsed == s1.elapsed
    decreases Throttle.HandlerRank(s.handler)
  {
    if s.handler == Throttle.HTest {
      assert Throttle.RunHandler(s1).handler == Throttle.Quiet;
      assert s1.log + [] == s1.log;
      assert Throttle.RunHandler(s1) == s1.(handler := Throttle.Quiet);
    } else if s.handler != Throttle.Quiet {
      SameButStep(s, s1);
      OffCommutes(Throttle.RunHandler(s), Throttle.RunHandler(s1));
    }
  }

  lemma SameButStep(s: Throttle.State, s1: Throttle.State)
    requires SameBut(s, s1) && s.handler != Throttle.HTest && s.handler != Throttle.Quiet
    ensures SameBut(Throttle.RunHandler(s), Throttle.RunHandler(s1))
    ensures Throttle.RunHandler(s).handler != Throttle.HTest
    ensures Throttle.RunHandler(s1).elapsed == s1.elapsed
  {
    WakeEmptiesQueue(s1);
    assert CoreOf(Throttle.RunHandler(s1)).sleepers == {};
  }

  // ---------------------------------------------------------------- reported time on

  datatype Interval = Interval(from: nat, to: nat)

  function Length(i: Interval): int { i.to - i.from }

  // A core switched off, then on and off again for each interval, oldest first.
  function AfterIntervals(c: Core, hz: nat, history: seq<Interval>): Core
  {
    if history == [] then c
    else
      var i := history[|history| - 1];
      OffCore(OnCore(AfterIntervals(c, hz, history[..|history| - 1]), i.from, hz), i.to)
  }

  // `elapsed` is overwritten, so what is reported is the last interval only; it is the time
  // on over all intervals exactly when the earlier ones are empty.
  lemma {:induction false} ElapsedIsLastInterval(c: Core, hz: nat, history: seq<Interval>, now: nat)
    requires !c.on && history != []
    requires forall i :: 0 <= i < |history| ==> history[i].from <= history[i].to
    ensures var r := ReportedElapsed(AfterIntervals(c, hz, history), now);
            && !AfterIntervals(c, hz, history).on
            && r == Length(history[|history| - 1])
            && (r == Sum(Length, history)
                <==> forall i :: 0 <= i < |history| - 1 ==> history[i].from == history[i].to)
    decreases |history|
  {
    var front := history[..|history| - 1];
    if front != [] {
      ElapsedIsLastInterval(c, hz, front, now);
    }
    EmptyIffZero(front);
  }

  // While the monitor is on, the interval in progress is added to the last completed one.
  lemma ElapsedWhileOn(c: Core, hz: nat, history: seq<Interval>, from: nat, now: nat)
    requires !c.on && history != [] && from <= now
    requires forall i :: 0 <= i < |history| ==> history[i].from <= history[i].to
    ensures var s := OnCore(AfterIntervals(c, hz, history), from, hz);
            var r := ReportedElapsed(s, now);
            && s.on
            && r == Length(history[|history| - 1]) + (now - from)
            && (r == Sum(Length, history + [Interval(from, now)])
                <==> forall i :: 0 <= i < |history| - 1 ==> history[i].from == history[i].to)
  {
    ElapsedIsLastInterval(c, hz, history, now);
    SumAppend(Length, history, Interval(from, now));
  }

  lemma EmptyIffZero(history: seq<Interval>)
    requires forall i :: 0 <= i < |history| ==> history[i].from <= history[i].to
    ensures Sum(Length, history) == 0 <==> forall i :: 0 <= i < |history| ==> history[i].from == history[i].to
  {
    SumNonNegative(Length, history);
    if forall i :: 0 <= i < |history| ==> history[i].from == history[i].to {
      SumZero(Length, history);
    } else {
      var i :| 0 <= i < |history| && history[i].from != history[i].to;
      SumBounds(Length, history, i);
    }
  }
}
