// How long a call waited, by the clock: the delay it keeps for the record of its system call
// (src/throttling_api.c:766-781) against the times at which the run has it read the clock.
module ThrottleDelay {
  import opened Wrappers
  import opened Throttle
  import opened ThrottleSafety

  predicate IsStep(ss: seq<State>, ks: seq<Step>, t: nat, x: nat)
    requires |ss| == |ks| + 1 && x < |ks|
  {
    ks[x].Run? && ks[x].t == t && t < |ss[x].threads|
  }

  // Step x has thread t read the clock before it waits, or after.
  predicate Starts(ss: seq<State>, ks: seq<Step>, t: nat, x: nat)
    requires |ss| == |ks| + 1 && x < |ks|
  {
    IsStep(ss, ks, t, x) && ss[x].threads[t].pc.Stamp?
  }

  predicate Ends(ss: seq<State>, ks: seq<Step>, t: nat, x: nat)
    requires |ss| == |ks| + 1 && x < |ks|
  {
    IsStep(ss, ks, t, x) && ss[x].threads[t].pc.AddDelay?
  }

  // ---------------------------------------------------------------- one step

  lemma DelayMoves(s: State, k: Step, t: nat)
    requires Enabled(s, k) && t < |s.threads|
    ensures t < |Apply(s, k).threads|
    ensures var th, th', own := s.threads[t], Apply(s, k).threads[t], k.Run? && k.t == t;
            && (k == Call(t) ==> th'.pc.Entry? && th'.delay == 0)
            && (own && th.pc.Stamp? ==> th'.start == s.now && th'.delay == th.delay)
            && (own && th.pc.AddDelay? ==> th'.delay == th.delay + (s.now - th.start) && th'.start == th.start)
            && (k != Call(t) && !(own && (th.pc.Stamp? || th.pc.AddDelay?)) ==>
                  th'.delay == th.delay && th'.start == th.start)
            && (Stamped(th'.pc) ==> (Stamped(th.pc) && k != Call(t)) || (own && th.pc.Stamp?))
  {
    ThreadsFrame(s, k);
    if k.Run? && k.t == t {
      PcMove(s.on, s.tokens, s.threads[t], k.need);
    }
  }

  lemma DelayStep(ss: seq<State>, ks: seq<Step>, t: nat, x: nat)
    requires IsPath(ss, ks) && x < |ks| && t < |ss[x].threads|
    ensures t < |ss[x + 1].threads|
    ensures var th, th' := ss[x].threads[t], ss[x + 1].threads[t];
            && (ks[x] == Call(t) ==> th'.pc.Entry? && th'.delay == 0)
            && (Starts(ss, ks, t, x) ==> th'.start == ss[x].now && th'.delay == th.delay)
            && (Ends(ss, ks, t, x) ==> th'.delay == th.delay + (ss[x].now - th.start) && th'.start == th.start)
            && (ks[x] != Call(t) && !Starts(ss, ks, t, x) && !Ends(ss, ks, t, x) ==>
                  th'.delay == th.delay && th'.start == th.start)
            && (Stamped(th'.pc) ==> (Stamped(th.pc) && ks[x] != Call(t)) || Starts(ss, ks, t, x))
  {
    DelayMoves(ss[x], ks[x], t);
    hide Apply, Enabled, Stamped;
  }

  // ---------------------------------------------------------------- one wait

  // The steps from x up to y are of one wait of thread t: it read the clock in step x, and
  // neither read it again nor began another call since.
  predicate IsWait(ss: seq<State>, ks: seq<Step>, t: nat, x: nat, y: nat)
    requires |ss| == |ks| + 1
  {
    && x < y < |ss| && Starts(ss, ks, t, x)
    && (forall z :: x < z < y ==> !Starts(ss, ks, t, z) && !Ends(ss, ks, t, z) && ks[z] != Call(t))
  }

  lemma {:induction false} WaitKeeps(ss: seq<State>, ks: seq<Step>, t: nat, x: nat, y: nat)
    requires IsPath(ss, ks) && IsWait(ss, ks, t, x, y)
    ensures t < |ss[y].threads| && ss[y].threads[t].start == ss[x].now && ss[y].threads[t].delay == ss[x].threads[t].delay
    decreases y
  {
    if y > x + 1 {
      WaitKeeps(ss, ks, t, x, y - 1);
    }
    DelayStep(ss, ks, t, y - 1);
    hide IsPath, Starts, Ends;
  }

  // The end of a wait adds the time since its start to the delay; no other step but the start
  // of a call changes it.
  lemma DelayIsClock(ss: seq<State>, ks: seq<Step>, t: nat, x: nat, y: nat)
    requires IsPath(ss, ks) && y < |ks| && IsWait(ss, ks, t, x, y) && Ends(ss, ks, t, y)
    ensures t < |ss[y + 1].threads|
    ensures ss[y + 1].threads[t].delay == ss[x].threads[t].delay + (ss[y].now - ss[x].now)
  {
    WaitKeeps(ss, ks, t, x, y);
    DelayStep(ss, ks, t, y);
  }

  lemma DelayElsewhere(ss: seq<State>, ks: seq<Step>, t: nat, x: nat)
    requires IsPath(ss, ks) && x < |ks| && t < |ss[x].threads|
    ensures t < |ss[x + 1].threads|
    ensures ks[x] == Call(t) ==> ss[x + 1].threads[t].delay == 0
    ensures ks[x] != Call(t) && !Ends(ss, ks, t, x) ==> ss[x + 1].threads[t].delay == ss[x].threads[t].delay
  {
    DelayStep(ss, ks, t, x);
  }

  // ---------------------------------------------------------------- a whole call

  // The last step from i up to j in which thread t read the clock before a wait.
  function LastStart(ss: seq<State>, ks: seq<Step>, t: nat, i: nat, j: nat): (x: Option<nat>)
    requires |ss| == |ks| + 1 && j < |ss|
    ensures x.Some? ==> i <= x.value < j && Starts(ss, ks, t, x.value)
    ensures x.Some? ==> forall z :: x.value < z < j ==> !Starts(ss, ks, t, z)
    ensures x.None? ==> forall z :: i <= z < j ==> !Starts(ss, ks, t, z)
    decreases j
  {
    if j <= i then None
    else if Starts(ss, ks, t, j - 1) then Some(j - 1)
    else LastStart(ss, ks, t, i, j - 1)
  }

  // The clock differences of the waits that ended from i up to j.
  function ClockWaits(ss: seq<State>, ks: seq<Step>, t: nat, i: nat, j: nat): int
    requires |ss| == |ks| + 1 && j < |ss|
    decreases j
  {
    if j <= i then 0
    else
      var x := LastStart(ss, ks, t, i, j - 1);
      ClockWaits(ss, ks, t, i, j - 1)
      + if Ends(ss, ks, t, j - 1) && x.Some? then ss[j - 1].now - ss[x.value].now else 0
  }

  // In state j of the call that thread t began in step i.
  predicate InCall(ss: seq<State>, ks: seq<Step>, t: nat, i: nat, j: nat)
  {
    && |ss| == |ks| + 1 && i < j < |ss| && ks[i] == Call(t)
    && (forall x :: i < x < j ==> ks[x] != Call(t))
  }

  // The delay of a call is the clock time between the start and the end of each of its waits,
  // and a wait in progress began when the clock was last read.
  lemma {:induction false} DelayIsClockTime(ss: seq<State>, ks: seq<Step>, t: nat, i: nat, j: nat)
    requires IsPath(ss, ks) && InCall(ss, ks, t, i, j)
    ensures t < |ss[j].threads| && ss[j].threads[t].delay == ClockWaits(ss, ks, t, i + 1, j)
    ensures Stamped(ss[j].threads[t].pc) ==>
              var x := LastStart(ss, ks, t, i + 1, j);
              x.Some? && ss[j].threads[t].start == ss[x.value].now
    decreases j
  {
    if j == i + 1 {
      assert Enabled(ss[i], ks[i]);
      DelayStep(ss, ks, t, i);
    } else {
      DelayIsClockTime(ss, ks, t, i, j - 1);
      DelayStep(ss, ks, t, j - 1);
      hide IsPath;
    }
  }

  // Some wait of the steps from i up to j has begun and not ended.
  predicate WaitIsOpen(ss: seq<State>, ks: seq<Step>, t: nat, i: nat, j: nat)
    requires |ss| == |ks| + 1 && j < |ss|
    decreases j
  {
    i < j && (Starts(ss, ks, t, j - 1) || (!Ends(ss, ks, t, j - 1) && WaitIsOpen(ss, ks, t, i, j - 1)))
  }

  lemma WaitMoves(s: State, k: Step, t: nat)
    requires Enabled(s, k) && t < |s.threads| && k != Call(t)
    ensures t < |Apply(s, k).threads|
    ensures var pc, pc', own := s.threads[t].pc, Apply(s, k).threads[t].pc, k.Run? && k.t == t;
            && (own && pc.Stamp? ==> Waits(pc'))
            && (own && pc.AddDelay? ==> pc'.TryTake?)
            && (!(own && (pc.Stamp? || pc.AddDelay?)) && !pc'.Idle? ==> (Waits(pc') <==> Waits(pc)))
  {
    ThreadsFrame(s, k);
  }

  // Past the reading of the clock, or given up by a signal.
  predicate Waits(pc: Pc)
  {
    || pc.WaitMon? || pc.WaitTok? || pc.Enqueue? || pc.Park? || pc.Asleep? || pc.Dequeue? || pc.CountOut? || pc.AddDelay?
    || pc == Leave(Interrupted)
  }

  // No wait is left out: one that has begun has ended, by the addition to the delay, before the
  // call goes on, unless a signal made it give up.
  lemma {:induction false} EveryWaitCounts(ss: seq<State>, ks: seq<Step>, t: nat, i: nat, j: nat)
    requires IsPath(ss, ks) && InCall(ss, ks, t, i, j)
    ensures t < |ss[j].threads|
    ensures !ss[j].threads[t].pc.Idle? ==> (WaitIsOpen(ss, ks, t, i + 1, j) <==> Waits(ss[j].threads[t].pc))
    decreases j
  {
    if j == i + 1 {
      assert Enabled(ss[i], ks[i]);
      DelayStep(ss, ks, t, i);
    } else {
      EveryWaitCounts(ss, ks, t, i, j - 1);
      WaitMoves(ss[j - 1], ks[j - 1], t);
      if ss[j - 1].threads[t].pc.Idle? {
        IdleStays(ss[j - 1], ks[j - 1], t);
      }
      hide Apply, Enabled, Waits;
    }
  }

  lemma IdleStays(s: State, k: Step, t: nat)
    requires Enabled(s, k) && t < |s.threads| && k != Call(t) && s.threads[t].pc.Idle?
    ensures t < |Apply(s, k).threads| && Apply(s, k).threads[t].pc.Idle?
  {
    ThreadsFrame(s, k);
  }

  // A wait whose condition holds at the first test never touches the queue: it goes from the
  // test to the count, without the step that leaves the queue.
  lemma FirstTestSkipsQueue(s: State, t: nat)
    requires t < |s.threads| && Enabled(s, Run(t, true, true))
    ensures var pc, th' := s.threads[t].pc, Apply(s, Run(t, true, true)).threads[t];
            && (pc == WaitMon(false) && !s.on ==> th'.pc == CountOut(true))
            && (pc == WaitTok(false) && s.tokens > 0 ==> th'.pc == CountOut(true))
            && (th'.pc.Dequeue? ==> pc == WaitMon(true) || pc == WaitTok(true))
  {
  }
}
