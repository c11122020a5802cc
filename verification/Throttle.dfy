// The admission protocol as a step relation: caller threads inside the wrapper
// (src/throttling_api.c:670-810), the epoch handler (src/throttling_hidden.c:28-67)
// and the control operations (src/throttling_api.c:300-358). Every access to a shared
// atomic variable is one step, together with the reading of the clock that goes into it; any
// interleaving is allowed. Three steps stand for more than one access: a wake-up and an
// enqueueing, which hold the lock of the wait queue; the setting up and arming of the timer;
// and the three lookups of a call, which WrapperCall takes apart.
module Throttle {
  import opened Wrappers
  import opened Sums
  import MovingAverage

  // How a call leaves the wrapper.
  datatype Outcome =
    | NotLookedUp  // monitor off at entry: the lookup was jumped over
    | Unmonitored  // neither the user id nor the program name is registered
    | Token        // left the admission loop holding a token
    | Bypass       // found the monitor off after a failed decrement
    | Interrupted  // -EINTR

  // `queue` is false for the test wait_event makes before it enqueues, true inside its loop.
  datatype Pc =
    | Idle
    | Entry                 // :689
    | Lookup                // :696-720
    | TryTake               // :755
    | TestOff               // :758
    | CountIn               // :763
    | Stamp                 // :766
    | WaitMon(queue: bool)  // :770, first half
    | WaitTok(queue: bool)  // :770, second half
    | Enqueue               // wait_event puts the entry on the queue, ready to sleep
    | Park                  // condition seen false, about to sleep
    | Asleep
    | Dequeue               // condition seen true inside the loop
    | CountOut(ok: bool)    // :773
    | AddDelay              // :781
    | Leave(outcome: Outcome)

  datatype Wait = Wait(from: nat, to: nat)

  // `sleepy` is the interruptible task state: set on enqueueing, cleared by a wake-up or
  // a signal. The last four fields are history variables of the current call.
  datatype Thread = Thread(
    pc: Pc, queued: bool, sleepy: bool, signal: bool, intr: bool,
    start: nat, delay: int, found: bool,
    entered: nat, tries: nat, taken: nat, waits: seq<Wait>)

  const FRESH_THREAD := Thread(Idle, false, false, false, false, 0, 0, false, 0, 0, 0, [])

  datatype Ctl =
    | Rest
    | OnStamp     // src/throttling_hidden.c:13
    | OnArm       // src/throttling_hidden.c:15-18
    | OffWake     // src/throttling_api.c:326
    | OffElapsed  // src/throttling_api.c:329
    | OffStore(elapsed: int)  // src/throttling_api.c:330
    | OffCancel   // src/throttling_api.c:333

  datatype Handler =
    | Quiet
    | HTest
    | HMax
    | HSample(max: int)
    | HSum(max: int, b: nat)
    | HPeak(max: int, b: nat)
    | HPeakSet(max: int, b: nat)
    | HAvg(max: int, b: nat)
    | HAvgSet(max: int, next: nat)
    | HRefill(max: int)
    | HWake
    | HRearm

  datatype Event =
    | Refill(at: nat, n: int)
    | Grant(at: nat, t: nat)
    | Bypassed(at: nat, t: nat)
    | Sample(at: nat, blocked: nat)
    | Returned(at: nat, t: nat, outcome: Outcome, called: bool)

  // `log` is a history variable.
  datatype State = State(
    hz: nat, now: nat,
    tokens: int, on: bool, max: int, blocked: int,
    sum: nat, peak: nat, avg: nat, startTime: nat, elapsed: int,
    timer: Option<nat>, handler: Handler,
    threads: seq<Thread>, ctls: seq<Ctl>,
    log: seq<Event>)

  datatype Step =
    | Tick
    | Call(t: nat)
    | Run(t: nat, need: bool, found: bool)  // need and found: what the lookups answer
    | Signal(t: nat)
    | Fire
    | Handle
    | SwitchOn(c: nat)
    | SwitchOff(c: nat)
    | Control(c: nat)
    | SetMax(m: int)

  const INITIAL_BUDGET := 3  // src/throttling_mod.c:33-34

  // The state in which init_module leaves the module: monitor on, timer armed.
  predicate Init(s: State)
  {
    && s.hz >= 1 && s.now == 0
    && s.tokens == s.max == INITIAL_BUDGET && s.on
    && s.blocked == s.sum == s.peak == s.avg == s.elapsed == 0 && s.startTime == 0
    && s.timer == Some(s.hz) && s.handler == Quiet && s.log == []
    && (forall i :: 0 <= i < |s.threads| ==> s.threads[i] == FRESH_THREAD)
    && (forall i :: 0 <= i < |s.ctls| ==> s.ctls[i] == Rest)
  }

  // Loading in numbers.
  lemma LoadInNumbers(s: State)
    requires Init(s)
    ensures s.tokens == 3 && s.max == 3 && s.on && s.timer == Some(s.hz) && s.now == 0
  {
  }

  predicate Enabled(s: State, k: Step)
  {
    match k
    case Tick => true
    case Call(t) => t < |s.threads| && s.threads[t].pc == Idle
    case Run(t, _, _) =>
      && t < |s.threads| && s.threads[t].pc != Idle
      && (s.threads[t].pc == Asleep ==> !s.threads[t].sleepy)
    case Signal(t) => t < |s.threads|
    case Fire => s.timer.Some? && s.timer.value <= s.now && s.handler == Quiet
    case Handle => s.handler != Quiet
    case SwitchOn(c) => c < |s.ctls| && s.ctls[c] == Rest
    case SwitchOff(c) => c < |s.ctls| && s.ctls[c] == Rest
    case Control(c) =>
      && c < |s.ctls| && s.ctls[c] != Rest
      && (s.ctls[c] == OffCancel ==> s.handler == Quiet)  // timer_delete_sync waits for the handler
    case SetMax(_) => true
  }

  function Put(s: State, t: nat, th: Thread): State
    requires t < |s.threads|
  {
    s.(threads := s.threads[t := th])
  }

  // wake_up on the queue: every sleeping entry is removed and made runnable.
  function Woken(th: Thread): Thread
  {
    if th.queued && th.sleepy then th.(queued := false, sleepy := false) else th
  }

  function WakeAll(threads: seq<Thread>): (r: seq<Thread>)
    ensures |r| == |threads|
    ensures forall i :: 0 <= i < |r| ==> r[i] == Woken(threads[i])
  {
    seq(|threads|, i requires 0 <= i < |threads| => Woken(threads[i]))
  }

  // Where the thread goes, given what it reads.
  function NextPc(on: bool, tokens: int, th: Thread, need: bool): Pc
  {
    match th.pc
    case Idle => Idle
    case Entry => if on then Lookup else Leave(NotLookedUp)
    case Lookup => if need then TryTake else Leave(Unmonitored)
    case TryTake => if tokens > 0 then Leave(Token) else TestOff
    case TestOff => if on then CountIn else Leave(Bypass)
    case CountIn => Stamp
    case Stamp => WaitMon(false)
    case WaitMon(queue) => if on then WaitTok(queue) else Released(queue)
    case WaitTok(queue) =>
      if tokens > 0 then Released(queue)
      else if !queue then Enqueue
      else if th.intr then CountOut(false)
      else Park
    case Enqueue => WaitMon(true)
    case Park => if th.sleepy then Asleep else Enqueue
    case Asleep => Enqueue
    case Dequeue => CountOut(true)
    case CountOut(ok) => if ok then AddDelay else Leave(Interrupted)
    case AddDelay => TryTake
    case Leave(_) => Idle
  }

  // Where a satisfied wait goes: finish_wait has work only after an enqueue.
  function Released(queue: bool): Pc
  {
    if queue then Dequeue else CountOut(true)
  }

  // The thread after a step. At :770 prepare_to_wait_event enqueues, or notices a pending
  // signal and takes the entry off the queue; finish_wait dequeues. The record of a
  // finished call stays until the next one starts.
  function Advance(s: State, th: Thread, need: bool, found: bool): Thread
  {
    th.(pc := NextPc(s.on, s.tokens, th, need),
        queued := if th.pc.Enqueue? then !th.signal else th.queued && !th.pc.Dequeue?,
        sleepy := if th.pc.Enqueue? then !th.signal else th.sleepy && !th.pc.Dequeue?,
        signal := th.signal && !th.pc.Leave?,
        intr := if th.pc.Enqueue? then th.signal else th.intr,
        start := if th.pc.Stamp? then s.now else th.start,
        delay := if th.pc.AddDelay? then th.delay + (s.now - th.start) else th.delay,
        found := if th.pc.Lookup? then found else th.found,
        tries := if th.pc.TryTake? then th.tries + 1 else th.tries,
        taken := th.taken + TokensTaken(s, th),
        waits := if th.pc.AddDelay? then th.waits + [Wait(th.start, s.now)] else th.waits)
  }

  // What the step does to the token counter (:755), to the blocked counter (:763, :773)
  // and to the log.
  function TokensTaken(s: State, th: Thread): int
  {
    if th.pc.TryTake? && s.tokens > 0 then 1 else 0
  }

  function BlockedChange(pc: Pc): int
  {
    if pc.CountIn? then 1 else if pc.CountOut? then -1 else 0
  }

  function Emitted(s: State, t: nat, th: Thread): seq<Event>
  {
    if th.pc.TryTake? && s.tokens > 0 then [Grant(s.now, t)]
    else if th.pc.TestOff? && !s.on then [Bypassed(s.now, t)]
    else if th.pc.Leave? then
      [Returned(s.now, t, th.pc.outcome, th.pc.outcome != Interrupted && th.found)]
    else []
  }

  function RunThread(s: State, t: nat, need: bool, found: bool): State
    requires t < |s.threads|
  {
    var th := s.threads[t];
    s.(threads := s.threads[t := Advance(s, th, need, found)],
       tokens := s.tokens - TokensTaken(s, th),
       blocked := s.blocked + BlockedChange(th.pc),
       log := s.log + Emitted(s, t, th))
  }

  // The counter is signed and read into an unsigned long.
  function Unsigned(x: int): nat
  {
    if x >= 0 then x else x % 0x1_0000_0000_0000_0000
  }

  function NextHandler(s: State): Handler
  {
    match s.handler
    case Quiet => Quiet
    case HTest => if s.on then HMax else Quiet
    case HMax => HSample(s.max)
    case HSample(m) => HSum(m, Unsigned(s.blocked))
    case HSum(m, b) => HPeak(m, b)
    case HPeak(m, b) => if b > s.peak then HPeakSet(m, b) else HAvg(m, b)
    case HPeakSet(m, b) => HAvg(m, b)
    case HAvg(m, b) => HAvgSet(m, MovingAverage.AverageStep(s.avg, b))
    case HAvgSet(m, _) => HRefill(m)
    case HRefill(_) => HWake
    case HWake => HRearm
    case HRearm => Quiet
  }

  // How many steps the handler is from its end.
  function HandlerRank(h: Handler): nat
  {
    match h
    case Quiet => 0
    case HRearm => 1
    case HWake => 2
    case HRefill(_) => 3
    case HAvgSet(_, _) => 4
    case HAvg(_, _) => 5
    case HPeakSet(_, _) => 6
    case HPeak(_, _) => 7
    case HSum(_, _) => 8
    case HSample(_) => 9
    case HMax => 10
    case HTest => 11
  }

  // The sample logged is the true number of blocked threads, not the counter.
  function HandlerEmits(s: State): seq<Event>
  {
    if s.handler.HSample? then [Sample(s.now, Blocked(s.threads))]
    else if s.handler.HRefill? then [Refill(s.now, s.handler.max)]
    else []
  }

  function RunHandler(s: State): State
  {
    var h := s.handler;
    s.(handler := NextHandler(s),
       sum := if h.HSum? then s.sum + h.b else s.sum,
       peak := if h.HPeakSet? then h.b else s.peak,
       avg := if h.HAvgSet? then h.next else s.avg,
       tokens := if h.HRefill? then h.max else s.tokens,
       threads := if h.HWake? then WakeAll(s.threads) else s.threads,
       timer := if h.HRearm? then Some(s.now + s.hz) else s.timer,
       log := s.log + HandlerEmits(s))
  }

  function NextControl(s: State, c: Ctl): Ctl
  {
    match c
    case Rest => Rest
    case OnStamp => OnArm
    case OnArm => Rest
    case OffWake => OffElapsed
    case OffElapsed => OffStore(s.now - s.startTime)
    case OffStore(_) => OffCancel
    case OffCancel => Rest
  }

  function RunControl(s: State, c: nat): State
    requires c < |s.ctls|
  {
    var at := s.ctls[c];
    s.(ctls := s.ctls[c := NextControl(s, at)],
       startTime := if at.OnStamp? then s.now else s.startTime,
       timer := if at.OnArm? then Some(s.now + s.hz) else if at.OffCancel? then None else s.timer,
       threads := if at.OffWake? then WakeAll(s.threads) else s.threads,
       elapsed := if at.OffStore? then at.elapsed else s.elapsed)
  }

  function Apply(s: State, k: Step): State
    requires Enabled(s, k)
  {
    match k
    case Tick => s.(now := s.now + 1)
    case Call(t) => Put(s, t, FRESH_THREAD.(pc := Entry, entered := s.now, signal := s.threads[t].signal))
    case Run(t, need, found) => RunThread(s, t, need, found)
    case Signal(t) => Put(s, t, s.threads[t].(signal := true, sleepy := false))
    case Fire => s.(timer := None, handler := HTest)
    case Handle => RunHandler(s)
    case SwitchOn(c) => if s.on then s else s.(on := true, ctls := s.ctls[c := OnStamp])
    case SwitchOff(c) => if s.on then s.(on := false, ctls := s.ctls[c := OffWake]) else s
    case Control(c) => RunControl(s, c)
    case SetMax(m) => if m <= 0 then s else s.(max := m)
  }

  // Between the increment and the decrement of the blocked counter.
  predicate IsWaiting(pc: Pc)
  {
    pc.Stamp? || pc.WaitMon? || pc.WaitTok? || pc.Enqueue? || pc.Park? || pc.Asleep? || pc.Dequeue? || pc.CountOut?
  }

  function Waiting(th: Thread): int
  {
    if IsWaiting(th.pc) then 1 else 0
  }

  function Blocked(threads: seq<Thread>): nat
  {
    SumNonNegative(Waiting, threads);
    Sum(Waiting, threads)
  }

  // A run is a sequence of states joined by enabled steps.
  predicate IsPath(ss: seq<State>, ks: seq<Step>)
  {
    && |ss| == |ks| + 1
    && (forall i :: 0 <= i < |ks| ==> Enabled(ss[i], ks[i]) && ss[i + 1] == Apply(ss[i], ks[i]))
  }

  predicate IsRun(ss: seq<State>, ks: seq<Step>)
  {
    IsPath(ss, ks) && Init(ss[0])
  }
}
