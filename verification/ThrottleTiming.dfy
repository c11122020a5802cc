// The real-time rate bound (README.md:66), and which runs of overlapping on/off operations
// leave the monitor without its timer.
module ThrottleTiming {
  import opened Wrappers
  import opened Sums
  import opened Throttle
  import opened ThrottleSafety

  // ---------------------------------------------------------------- serialised on/off

  predicate AllRest(s: State)
  {
    forall c :: 0 <= c < |s.ctls| ==> s.ctls[c] == Rest
  }

  // An on/off operation starts only when no other one is in progress.
  predicate SerialStep(s: State, k: Step)
  {
    k.SwitchOn? || k.SwitchOff? ==> AllRest(s)
  }

  predicate IsSerialRun(ss: seq<State>, ks: seq<Step>)
  {
    IsRun(ss, ks) && forall i :: 0 <= i < |ks| ==> SerialStep(ss[i], ks[i])
  }

  // Every refill so far lies at least one period before x.
  predicate RefillsBy(s: State, x: nat)
  {
    forall i :: 0 <= i < |s.log| && s.log[i].Refill? ==> s.log[i].at + s.hz <= x
  }

  predicate Turning(c: Ctl, on: bool)
  {
    if on then c == OnStamp || c == OnArm else c == OffWake || c == OffElapsed || c.OffStore? || c == OffCancel
  }

  // The handler has fired and not yet refilled.
  predicate BeforeRefill(h: Handler)
  {
    !(h.Quiet? || h.HWake? || h.HRearm?)
  }

  // A refill that can still come lies a period after those that were.
  predicate Paced(s: State)
  {
    && (s.timer.Some? && (s.handler == Quiet || s.handler == HTest) ==> RefillsBy(s, s.timer.value))
    && (BeforeRefill(s.handler) ==> RefillsBy(s, s.now))
  }

  predicate Ordered(log: seq<Event>)
  {
    forall i, j :: 0 <= i < j < |log| ==> log[i].at <= log[j].at
  }

  // Refills are at least a period apart.
  predicate Spaced(log: seq<Event>, hz: nat)
  {
    forall i, j :: 0 <= i < j < |log| && log[i].Refill? && log[j].Refill? ==> log[i].at + hz <= log[j].at
  }

  // No epoch grants more than its own budget.
  predicate Thrifty(log: seq<Event>)
  {
    forall n :: 0 <= n <= |log| ==> SinceRefill(log[..n]) <= Budget(log[..n])
  }

  predicate LogOk(s: State)
  {
    && (forall i :: 0 <= i < |s.log| ==> s.log[i].at <= s.now)
    && Ordered(s.log) && Spaced(s.log, s.hz) && Thrifty(s.log)
  }

  lemma RefillsStep(s: State, k: Step, x: nat)
    requires Enabled(s, k) && RefillsBy(s, x)
    requires !(k.Handle? && s.handler.HRefill?)
    ensures RefillsBy(Apply(s, k), x)
  {
    LogGrows(s, k);
    var s' := Apply(s, k);
    assert forall i :: 0 <= i < |s.log| ==> s'.log[i] == s.log[i];
  }

  lemma NowStep(s: State, k: Step)
    requires Enabled(s, k) && LogOk(s)
    ensures RefillsBy(Apply(s, k), s.now + s.hz)
  {
    LogGrows(s, k);
    var s' := Apply(s, k);
    assert forall i :: 0 <= i < |s.log| ==> s'.log[i] == s.log[i];
  }

  lemma RefillsLater(s: State, x: nat, y: nat)
    requires RefillsBy(s, x) && x <= y
    ensures RefillsBy(s, y)
  {
  }

  // Where an armed timer, and a handler that will refill, come from.
  lemma TimerSource(s: State, k: Step)
    requires Enabled(s, k)
    ensures var s' := Apply(s, k);
            && s'.hz == s.hz && s'.now >= s.now
            && (s'.timer.Some? && (s'.handler == Quiet || s'.handler == HTest) ==>
                  || s'.timer.value == s.now + s.hz
                  || (s'.timer == s.timer && (s.handler == Quiet || s.handler == HTest)))
            && (BeforeRefill(s'.handler) ==>
                  || (BeforeRefill(s.handler) && !(k.Handle? && s.handler.HRefill?))
                  || (s.timer.Some? && s.timer.value <= s.now && s.handler == Quiet && !k.Handle?))
  {
  }

  lemma PacedStep(s: State, k: Step)
    requires Enabled(s, k) && LogOk(s) && Paced(s)
    ensures Paced(Apply(s, k))
  {
    var s' := Apply(s, k);
    NowStep(s, k);
    TimerSource(s, k);
    if s.timer.Some? && (s.handler == Quiet || s.handler == HTest) {
      RefillsStep(s, k, s.timer.value);
      if s.timer.value <= s.now {
        RefillsLater(s', s.timer.value, s'.now);
      }
    }
    if BeforeRefill(s.handler) && !(k.Handle? && s.handler.HRefill?) {
      RefillsStep(s, k, s.now);
      RefillsLater(s', s.now, s'.now);
    }
    hide Apply, Enabled, LogOk, RefillsBy;
  }

  lemma ThriftyStep(s: State, k: Step)
    requires Enabled(s, k) && TokensOk(s) && Thrifty(s.log)
    ensures Thrifty(Apply(s, k).log)
  {
    LogGrows(s, k);
    TokensStep(s, k);
    var log := Apply(s, k).log;
    forall n | 0 <= n <= |log|
      ensures SinceRefill(log[..n]) <= Budget(log[..n])
    {
      if n <= |s.log| {
        assert log[..n] == s.log[..n];
      } else {
        assert log[..n] == log;
      }
    }
  }

  lemma SpacedStep(s: State, k: Step)
    requires Enabled(s, k) && Spaced(s.log, s.hz) && Paced(s)
    ensures Spaced(Apply(s, k).log, s.hz)
  {
    LogGrows(s, k);
    var log := Apply(s, k).log;
    assert forall i :: 0 <= i < |s.log| ==> log[i] == s.log[i];
    if |log| > |s.log| && log[|s.log|].Refill? {
      assert RefillsBy(s, s.now);
    }
  }

  lemma OrderedStep(s: State, k: Step)
    requires Enabled(s, k) && LogOk(s)
    ensures Apply(s, k).hz == s.hz && Ordered(Apply(s, k).log)
    ensures forall i :: 0 <= i < |Apply(s, k).log| ==> Apply(s, k).log[i].at <= Apply(s, k).now
  {
    LogGrows(s, k);
    hide Spaced, Thrifty;
    var log := Apply(s, k).log;
    assert forall i :: 0 <= i < |s.log| ==> log[i] == s.log[i];
  }

  lemma LogStep(s: State, k: Step)
    requires Enabled(s, k) && TokensOk(s) && LogOk(s) && Paced(s)
    ensures LogOk(Apply(s, k))
  {
    ThriftyStep(s, k);
    SpacedStep(s, k);
    OrderedStep(s, k);
    hide Spaced, Thrifty, Ordered, Apply;
  }

  lemma {:induction false} PacedRun(ss: seq<State>, ks: seq<Step>, i: nat)
    requires IsRun(ss, ks) && i < |ss|
    ensures LogOk(ss[i]) && Paced(ss[i]) && ss[i].hz == ss[0].hz
  {
    if i > 0 {
      PacedRun(ss, ks, i - 1);
      InvRun(ss, ks, i - 1);
      PacedStep(ss[i - 1], ks[i - 1]);
      LogStep(ss[i - 1], ks[i - 1]);
      OrderedStep(ss[i - 1], ks[i - 1]);
      hide Inv, LogOk, Paced, Apply, Enabled;
    }
  }

  // ---------------------------------------------------------------- the timer and the flag

  // The timer was last deleted under a flag that was set again, and not armed since.
  predicate Lost(ss: seq<State>, ks: seq<Step>, i: nat)
    requires IsRun(ss, ks) && i < |ss|
  {
    i > 0
    && if IsControl(ss[i - 1], ks[i - 1], OffCancel) then ss[i - 1].on
       else !IsControl(ss[i - 1], ks[i - 1], OnArm) && Lost(ss, ks, i - 1)
  }

  // The timer was armed under a flag that was cleared again, and neither was it deleted
  // since nor did the handler find the flag cleared with nothing armed.
  predicate Stray(ss: seq<State>, ks: seq<Step>, i: nat)
    requires IsRun(ss, ks) && i < |ss|
  {
    i > 0
    && if IsControl(ss[i - 1], ks[i - 1], OnArm) then !ss[i - 1].on || Stray(ss, ks, i - 1)
       else !IsControl(ss[i - 1], ks[i - 1], OffCancel) && !GivesUp(ss[i - 1], ks[i - 1]) && Stray(ss, ks, i - 1)
  }

  predicate IsControl(s: State, k: Step, c: Ctl)
    requires Enabled(s, k)
  {
    k.Control? && s.ctls[k.c] == c
  }

  predicate GivesUp(s: State, k: Step)
  {
    k.Handle? && s.handler == HTest && !s.on && s.timer == None
  }

  predicate Idles(s: State)
  {
    s.timer == None && s.handler == Quiet
  }

  // Some on/off operation that turns the monitor to `on` is under way.
  predicate UnderWay(s: State, on: bool)
  {
    exists c :: 0 <= c < |s.ctls| && Turning(s.ctls[c], on)
  }

  predicate TimerOk(s: State, lost: bool, stray: bool)
  {
    && (lost ==> Idles(s))
    && (s.on && Idles(s) ==> lost || UnderWay(s, true))
    && (stray ==> !Idles(s))
    && (!s.on && !Idles(s) ==> stray || UnderWay(s, false))
  }

  // An operation stays under way until its last step.
  lemma UnderWayStep(s: State, k: Step, on: bool)
    requires Enabled(s, k) && UnderWay(s, on) && !IsControl(s, k, if on then OnArm else OffCancel)
    ensures UnderWay(Apply(s, k), on)
  {
    var c :| 0 <= c < |s.ctls| && Turning(s.ctls[c], on);
    assert Turning(Apply(s, k).ctls[c], on);
  }

  lemma TimerStep(s: State, k: Step, lost: bool, stray: bool)
    requires Enabled(s, k) && TimerOk(s, lost, stray)
    ensures var lost' := if IsControl(s, k, OffCancel) then s.on else !IsControl(s, k, OnArm) && lost;
            var stray' := if IsControl(s, k, OnArm) then !s.on || stray
                          else !IsControl(s, k, OffCancel) && !GivesUp(s, k) && stray;
            TimerOk(Apply(s, k), lost', stray')
  {
    var s' := Apply(s, k);
    if UnderWay(s, true) && !IsControl(s, k, OnArm) {
      UnderWayStep(s, k, true);
    }
    if UnderWay(s, false) && !IsControl(s, k, OffCancel) {
      UnderWayStep(s, k, false);
    }
    if k.SwitchOn? && !s.on {
      assert Turning(s'.ctls[k.c], true);
    }
    if k.SwitchOff? && s.on {
      assert Turning(s'.ctls[k.c], false);
    }
  }

  lemma {:induction false} TimerRun(ss: seq<State>, ks: seq<Step>, i: nat)
    requires IsRun(ss, ks) && i < |ss|
    ensures TimerOk(ss[i], Lost(ss, ks, i), Stray(ss, ks, i))
  {
    if i > 0 {
      TimerRun(ss, ks, i - 1);
      TimerStep(ss[i - 1], ks[i - 1], Lost(ss, ks, i - 1), Stray(ss, ks, i - 1));
    }
  }

  // In every run, with no on/off operation under way: a monitor that is on has no epoch
  // coming exactly if its timer is lost, and one that is off has one coming exactly if a
  // timer is astray.
  lemma TimerIffNotLost(ss: seq<State>, ks: seq<Step>, i: nat)
    requires IsRun(ss, ks) && i < |ss| && AllRest(ss[i])
    ensures var s := ss[i];
            && (s.on ==> (s.timer == None && s.handler == Quiet <==> Lost(ss, ks, i)))
            && (!s.on ==> (s.timer.Some? || s.handler != Quiet <==> Stray(ss, ks, i)))
  {
    TimerRun(ss, ks, i);
    assert !UnderWay(ss[i], true) && !UnderWay(ss[i], false);
  }

  // A timer that is due can fire whenever the handler is at rest; on a monitor that is off the
  // handler then gives up at once, and no timer is left.
  lemma DueTimerFires(s: State)
    requires s.timer.Some? && s.timer.value <= s.now && s.handler == Quiet
    ensures Enabled(s, Fire) && Enabled(Apply(s, Fire), Handle)
    ensures !s.on ==> Apply(Apply(s, Fire), Handle) == s.(timer := None)
  {
    assert s.log + [] == s.log;
  }

  // Who can always move: the clock, the handler when it runs, a control operation unless it
  // waits for the handler, and a thread in a call unless it sleeps.
  lemma NobodyIsStuck(s: State, t: nat, c: nat)
    ensures Enabled(s, Tick) && (s.handler != Quiet ==> Enabled(s, Handle))
    ensures c < |s.ctls| && s.ctls[c] != Rest ==> Enabled(s, Control(c)) || (s.ctls[c] == OffCancel && Enabled(s, Handle))
    ensures c < |s.ctls| && s.ctls[c] == Rest ==> Enabled(s, SwitchOn(c)) && Enabled(s, SwitchOff(c))
    ensures t < |s.threads| ==>
              || Enabled(s, Call(t)) || Enabled(s, Run(t, true, true))
              || (s.threads[t].pc == Asleep && s.threads[t].sleepy)
    ensures t < |s.threads| ==> Enabled(s, Signal(t))
  {
  }

  // With on/off serialised the flag stays as an operation set it until that operation ends.
  predicate SerialOk(s: State)
  {
    && (forall c, d :: 0 <= c < d < |s.ctls| ==> s.ctls[c] == Rest || s.ctls[d] == Rest)
    && (forall c :: 0 <= c < |s.ctls| ==>
          (Turning(s.ctls[c], true) ==> s.on) && (Turning(s.ctls[c], false) ==> !s.on))
  }

  lemma SerialOkStep(s: State, k: Step)
    requires Enabled(s, k) && SerialStep(s, k) && SerialOk(s)
    ensures SerialOk(Apply(s, k))
  {
  }

  // So no timer is lost, and none is astray.
  lemma {:induction false} SerialKeepsTimer(ss: seq<State>, ks: seq<Step>, i: nat)
    requires IsSerialRun(ss, ks) && i < |ss|
    ensures SerialOk(ss[i]) && !Lost(ss, ks, i) && !Stray(ss, ks, i)
  {
    if i > 0 {
      SerialKeepsTimer(ss, ks, i - 1);
      SerialOkStep(ss[i - 1], ks[i - 1]);
    }
  }

  // With on/off serialised, a monitor that is on and at rest always has its next epoch coming,
  // and one that is off has neither timer nor handler.
  lemma TimerFollowsMonitor(ss: seq<State>, ks: seq<Step>, i: nat)
    requires IsSerialRun(ss, ks) && i < |ss| && AllRest(ss[i])
    ensures ss[i].on <==> ss[i].timer.Some? || ss[i].handler != Quiet
  {
    SerialKeepsTimer(ss, ks, i);
    TimerIffNotLost(ss, ks, i);
  }

  // ---------------------------------------------------------------- the rate bound

  // Grants of a stretch of the log are paid by the budget in force at its start and by
  // its own refills.
  lemma {:induction false} StretchBound(log: seq<Event>, i: nat, j: nat)
    requires i <= j <= |log|
    requires Thrifty(log)
    ensures Sum(Granted, log[i..j]) + Budget(log[..j]) - SinceRefill(log[..j])
         <= Budget(log[..i]) + Sum(Refilled, log[i..j])
    decreases j
  {
    if i == j {
      assert log[i..j] == [];
    } else {
      StretchBound(log, i, j - 1);
      assert log[i..j] == log[i..j - 1] + [log[j - 1]];
      assert log[..j][..j - 1] == log[..j - 1];
      SumAppend(Granted, log[i..j - 1], log[j - 1]);
      SumAppend(Refilled, log[i..j - 1], log[j - 1]);
    }
  }

  // A stretch shorter than a period holds at most one refill.
  lemma {:induction false} ShortStretch(log: seq<Event>, hz: nat)
    requires Ordered(log) && Spaced(log, hz)
    requires log != [] ==> log[|log| - 1].at < log[0].at + hz
    ensures 0 <= Sum(Refills, log) <= 1
    ensures Sum(Refills, log) == 0 ==> Sum(Refilled, log) == 0
    ensures Sum(Refilled, log) <= LargestRefill(log)
  {
    if log != [] {
      var front, e := log[..|log| - 1], log[|log| - 1];
      if e.Refill? {
        forall a | 0 <= a < |front|
          ensures !front[a].Refill?
        {
          assert log[0].at <= log[a].at;
        }
        SumZero(Refills, front);
        SumZero(Refilled, front);
      } else {
        ShortStretch(front, hz);
      }
    }
  }

  function LargestRefill(log: seq<Event>): (m: int)
    ensures m >= 0
    ensures forall a :: 0 <= a < |log| && log[a].Refill? ==> log[a].n <= m
  {
    if log == [] then 0
    else
      var m, e := LargestRefill(log[..|log| - 1]), log[|log| - 1];
      assert forall a :: 0 <= a < |log| - 1 ==> log[a] == log[..|log| - 1][a];
      if e.Refill? && e.n > m then e.n else m
  }

  lemma {:induction false} LargestRefillAtMost(log: seq<Event>, m: int)
    requires m >= 0
    requires forall a :: 0 <= a < |log| && log[a].Refill? ==> log[a].n <= m
    ensures LargestRefill(log) <= m
  {
    if log != [] {
      LargestRefillAtMost(log[..|log| - 1], m);
    }
  }

  // Grants with a time stamp in [from, to).
  function GrantsWithin(log: seq<Event>, from: nat, to: nat): nat
  {
    if log == [] then 0
    else
      var e := log[|log| - 1];
      GrantsWithin(log[..|log| - 1], from, to) + if e.Grant? && from <= e.at < to then 1 else 0
  }

  // log[i..j] holds exactly the events with a time stamp in [from, to).
  predicate IsWindow(log: seq<Event>, from: nat, to: nat, i: nat, j: nat)
  {
    && i <= j <= |log|
    && (forall x :: 0 <= x < i ==> log[x].at < from)
    && (forall x :: i <= x < j ==> from <= log[x].at < to)
    && (forall x :: j <= x < |log| ==> to <= log[x].at)
  }

  // The first position of an ordered log with a time stamp of at least x.
  lemma {:induction false} Cut(log: seq<Event>, x: nat) returns (i: nat)
    requires Ordered(log)
    ensures i <= |log|
    ensures forall a :: 0 <= a < i ==> log[a].at < x
    ensures forall a :: i <= a < |log| ==> x <= log[a].at
  {
    i := 0;
    while i < |log| && log[i].at < x
      invariant i <= |log|
      invariant forall a :: 0 <= a < i ==> log[a].at < x
    {
      i := i + 1;
    }
  }

  lemma SliceOfFront<T>(xs: seq<T>, n: nat, i: nat, j: nat)
    requires i <= j <= n <= |xs|
    ensures xs[..n][i..j] == xs[i..j]
  {
  }

  // A time window of an ordered log is one stretch of it.
  lemma {:induction false} WindowStretch(log: seq<Event>, from: nat, to: nat, i: nat, j: nat)
    requires IsWindow(log, from, to, i, j)
    ensures GrantsWithin(log, from, to) == Sum(Granted, log[i..j])
    decreases |log|
  {
    if log == [] {
      assert log[i..j] == [];
    } else {
      var n := |log| - 1;
      if i == n + 1 {
        assert log[i..j] == [] && log[..n][n..n] == [];
        WindowStretch(log[..n], from, to, n, n);
      } else if j == n + 1 {
        WindowStretch(log[..n], from, to, i, n);
        SliceOfFront(log, n, i, n);
        assert log[i..j] == log[i..n] + [log[n]];
        SumAppend(Granted, log[i..n], log[n]);
      } else {
        WindowStretch(log[..n], from, to, i, j);
        SliceOfFront(log, n, i, j);
      }
    }
  }

  lemma LogRateBound(log: seq<Event>, hz: nat, from: nat) returns (i: nat, j: nat)
    requires Ordered(log) && Spaced(log, hz) && Thrifty(log)
    ensures IsWindow(log, from, from + hz, i, j)
    ensures Sum(Refills, log[i..j]) <= 1
    ensures GrantsWithin(log, from, from + hz) <= Budget(log[..i]) + Sum(Refilled, log[i..j])
    ensures Sum(Refills, log[i..j]) == 0 ==> Sum(Refilled, log[i..j]) == 0
    ensures Sum(Refilled, log[i..j]) <= LargestRefill(log[i..j])
  {
    j := Cut(log, from + hz);
    i := Cut(log[..j], from);
    WindowStretch(log, from, from + hz, i, j);
    StretchBound(log, i, j);
    assert SinceRefill(log[..j]) <= Budget(log[..j]);
    SliceKeeps(log, hz, i, j);
    hide Spaced, Thrifty, Ordered;
    ShortStretch(log[i..j], hz);
  }

  lemma SliceKeeps(log: seq<Event>, hz: nat, i: nat, j: nat)
    requires Ordered(log) && Spaced(log, hz) && i <= j <= |log|
    ensures Ordered(log[i..j]) && Spaced(log[i..j], hz)
  {
    var w := log[i..j];
    assert forall x :: 0 <= x < |w| ==> w[x] == log[i + x];
  }

  // Any window of one period sees at most the budget in force when it opens plus the
  // value of the one refill it can contain; within one epoch, at most that epoch's budget.
  lemma RateBound(ss: seq<State>, ks: seq<Step>, n: nat, from: nat) returns (i: nat, j: nat)
    requires IsRun(ss, ks) && n < |ss|
    ensures IsWindow(ss[n].log, from, from + ss[n].hz, i, j)
    ensures Sum(Refills, ss[n].log[i..j]) <= 1
    ensures GrantsWithin(ss[n].log, from, from + ss[n].hz)
         <= Budget(ss[n].log[..i]) + Sum(Refilled, ss[n].log[i..j])
    ensures Sum(Refills, ss[n].log[i..j]) == 0 ==> Sum(Refilled, ss[n].log[i..j]) == 0
    ensures Sum(Refilled, ss[n].log[i..j]) <= LargestRefill(ss[n].log[i..j])
  {
    PacedRun(ss, ks, n);
    i, j := LogRateBound(ss[n].log, ss[n].hz, from);
  }

  // MAX never above m throughout the run, in the control variable and in flight.
  predicate MaxBelow(s: State, m: int)
  {
    && s.max <= m && HeldMax(s.handler) <= m
    && (forall a :: 0 <= a < |s.log| && s.log[a].Refill? ==> s.log[a].n <= m)
  }

  lemma {:induction false} MaxBelowRun(ss: seq<State>, ks: seq<Step>, m: int, i: nat)
    requires IsRun(ss, ks) && i < |ss| && INITIAL_BUDGET <= m
    requires forall x :: 0 <= x < |ss| ==> ss[x].max <= m
    ensures MaxBelow(ss[i], m)
  {
    if i > 0 {
      MaxBelowRun(ss, ks, m, i - 1);
      LogGrows(ss[i - 1], ks[i - 1]);
    }
  }

  lemma {:induction false} BudgetBelow(log: seq<Event>, m: int)
    requires INITIAL_BUDGET <= m
    requires forall a :: 0 <= a < |log| && log[a].Refill? ==> log[a].n <= m
    ensures Budget(log) <= m
  {
    if log != [] {
      BudgetBelow(log[..|log| - 1], m);
    }
  }

  // For a MAX that never exceeds m: at most 2 * m grants in any window of one period.
  lemma TwoMaxPerPeriod(ss: seq<State>, ks: seq<Step>, n: nat, from: nat, m: int)
    requires IsRun(ss, ks) && n < |ss| && INITIAL_BUDGET <= m
    requires forall x :: 0 <= x < |ss| ==> ss[x].max <= m
    ensures GrantsWithin(ss[n].log, from, from + ss[n].hz) <= 2 * m
  {
    MaxBelowRun(ss, ks, m, n);
    var i, j := RateBound(ss, ks, n, from);
    LargestRefillAtMost(ss[n].log[i..j], m);
    BudgetBelow(ss[n].log[..i], m);
  }

  lemma ClockStep(s: State, k: Step)
    requires Enabled(s, k)
    ensures s.now <= Apply(s, k).now
  {
  }

  lemma GrantStep(s: State, k: Step, from: nat, to: nat)
    requires Enabled(s, k) && from <= s.now < to
    ensures var s' := Apply(s, k);
            Sum(Granted, s'.log) - GrantsWithin(s'.log, from, to) == Sum(Granted, s.log) - GrantsWithin(s.log, from, to)
  {
    LogGrows(s, k);
    var log := Apply(s, k).log;
    if log != s.log {
      assert log == s.log + [log[|s.log|]];
      SumAppend(Granted, s.log, log[|s.log|]);
      hide Apply, Enabled;
    }
  }

  // The clock never goes back, and what is granted between two states falls between their times.
  lemma {:induction false} GrantsSince(ss: seq<State>, ks: seq<Step>, x: nat, n: nat, from: nat, to: nat)
    requires IsRun(ss, ks) && x <= n < |ss| && from <= ss[x].now && ss[n].now < to
    ensures ss[x].now <= ss[n].now
    ensures Sum(Granted, ss[n].log) <= Sum(Granted, ss[x].log) + GrantsWithin(ss[n].log, from, to)
    decreases n
  {
    hide Apply, Enabled, Sum, GrantsWithin, Init;
    if n == x {
      assert GrantsWithin(ss[n].log, from, to) >= 0;
    } else {
      ClockStep(ss[n - 1], ks[n - 1]);
      GrantsSince(ss, ks, x, n - 1, from, to);
      GrantStep(ss[n - 1], ks[n - 1], from, to);
    }
  }

  // Calls that a token lets through, rather than the tokens themselves: less than a period can
  // see 2 * m of them and those that held a token already, however long ago they took it.
  lemma LetThroughBound(ss: seq<State>, ks: seq<Step>, x: nat, n: nat, m: int)
    requires IsRun(ss, ks) && x <= n < |ss| && ss[n].now < ss[x].now + ss[n].hz && INITIAL_BUDGET <= m
    requires forall y :: 0 <= y < |ss| ==> ss[y].max <= m
    ensures Sum(Admitted, ss[n].log) <= Sum(Admitted, ss[x].log) + Sum(HoldsToken, ss[x].threads) + 2 * m
  {
    InvRun(ss, ks, x);
    InvRun(ss, ks, n);
    SumNonNegative(HoldsToken, ss[n].threads);
    TwoMaxPerPeriod(ss, ks, n, ss[x].now, m);
    GrantsSince(ss, ks, x, n, ss[x].now, ss[x].now + ss[n].hz);
  }

  // The same from state x of a run on: refills that the handler or the control variable
  // still carries from before count too.
  lemma {:induction false} MaxBelowSince(ss: seq<State>, ks: seq<Step>, m: int, x: nat, i: nat)
    requires IsRun(ss, ks) && x <= i < |ss| && m >= 1 && HeldMax(ss[x].handler) <= m
    requires forall y :: x <= y < |ss| ==> ss[y].max <= m
    ensures HeldMax(ss[i].handler) <= m && |ss[x].log| <= |ss[i].log|
    ensures forall a :: |ss[x].log| <= a < |ss[i].log| && ss[i].log[a].Refill? ==> ss[i].log[a].n <= m
  {
    if i > x {
      MaxBelowSince(ss, ks, m, x, i - 1);
      LogGrows(ss[i - 1], ks[i - 1]);
      var was, log := ss[i - 1].log, ss[i].log;
      assert forall a :: 0 <= a < |was| ==> log[a] == was[a];
    }
  }

  lemma {:induction false} BudgetSince(log: seq<Event>, m: int, a: nat)
    requires a < |log| && log[a].Refill?
    requires forall b :: a <= b < |log| && log[b].Refill? ==> log[b].n <= m
    ensures Budget(log) <= m
  {
    if !log[|log| - 1].Refill? {
      BudgetSince(log[..|log| - 1], m, a);
    }
  }

  // For a MAX that never exceeds m from state x on, however it was before: at most 2 * m
  // grants in any window of one period that opens after a refill made since.
  lemma TwoMaxOnceSet(ss: seq<State>, ks: seq<Step>, n: nat, from: nat, m: int, x: nat, a: nat)
    requires IsRun(ss, ks) && x <= n < |ss| && HeldMax(ss[x].handler) <= m
    requires forall y :: x <= y < |ss| ==> ss[y].max <= m
    requires |ss[x].log| <= a < |ss[n].log| && ss[n].log[a].Refill? && ss[n].log[a].at < from
    ensures GrantsWithin(ss[n].log, from, from + ss[n].hz) <= 2 * m
  {
    InvRun(ss, ks, x);
    MaxBelowSince(ss, ks, m, x, n);
    var i, j := RateBound(ss, ks, n, from);
    var log := ss[n].log;
    assert a < i;
    LargestRefillAtMost(log[i..j], m);
    BudgetSince(log[..i], m, a);
  }
}
