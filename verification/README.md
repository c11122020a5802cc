# A model of the system-call throttling module

The module patches chosen entries of the x86-64 system-call table with a wrapper. The wrapper
lets monitored callers through at a rate of at most MAX calls per second: a caller takes a token
or waits for the next epoch, when a timer handler refills the tokens and wakes the waiters. Which
system calls, user ids and program names are monitored is kept in hash tables that are read
without locks. An ioctl interface changes and reports this state.

The project models five parts and proves what they keep.

**Admission (`Throttle*.dfy`, `MovingAverage.dfy`, `Monitor.dfy`).** `Throttle` is a step relation:
any number of caller threads with a program counter each, the timer, its handler, any number of
control operations and a clock. Every access to a shared atomic is one step, but for three kinds of
steps that `Throttle.dfy` names, and steps interleave in any order. A thread is inside `wait_event_interruptible` at the granularity of its tests, its
enqueueing and its sleep; a wake-up wakes all queued sleepers, since the waits are not exclusive.
A history log records refills, grants, bypasses, samples and returns. `ThrottleSafety` holds the
invariants of every run, `ThrottleTiming` the rate bound, `ThrottleRelease` and `ThrottleDrain` the
progress measures, `ThrottleRounds` and `ThrottleWitness` the runs that show the hypotheses can be
met and the bounds attained, `ThrottleDelay` the delay of a call by the clock, `ThrottleOutcome` what
becomes of a call and what signals do to it. `Monitor` is the same state as a
class whose methods are the handler and the control calls, each connected to the steps it stands for.

**Registries under concurrency (`Rcu*.dfy`).** `RcuHeap` is the heap of bucketed lists with head
insertion and unlinking; `Rcu` the step relation of lock-free readers and of writers that follow
the code access by access: lock, patch the table, set the flag, link, count, unlink, wait for the
sections open at the call, free the statistics, free the node. `RcuSafety` couples lists, flags,
counters and table; `RcuReclaim` proves that nothing is freed under a reader; `RcuLookup` proves
lookups and enumerations right against any interleaving, `RcuScan` the listing of the system calls,
which scans the flags; `RcuOperations` says what the answer of a registration or deregistration means
while others interfere, and that it ends; `RcuWitness` gives the runs in which a registered call is looked up in vain.

**Both together (`Projection`, `WrapperCall`, `WrapperTheorems`).** One step relation in which a thread
makes its three lookups as read sections, step by step, between its entry test and its admission.
Its runs project to runs of `Throttle` and of `Rcu`, so what holds of those holds here, and each
answer of a lookup is placed between entry and return of its own call. A call may enter for any
number, whatever the table holds.

**The command layer, run sequentially (`HashTable`, `Buckets`, `CStrings`, `*Registry`,
`MonitoredSyscalls`, `Device`, `DeviceRuns`, `DeviceMonitor`, `PeakDelay`).** Classes over real doubly linked buckets,
a flag array, the patched table and the statistics records the nodes point to; `Device.Ioctl` is
proved to refine a transition on four values: the record of each registered system call, the user
ids, the names and the monitor. `DeviceRuns` and `DeviceMonitor` say what runs of commands make of
these, and what they answer, without reference to that transition. `PeakDelay` models the same record under concurrent callers.

**Table discovery (`PageWalk`, `TableFinder`).** The page walk next to an independent definition
taken from section 4.5 of the Intel 64 Software Developer's Manual, Volume 3A, which reads present and
page-size bits by their numbers, and the nested
search loops. `TableFinder.Entry`, the only read of memory, has "the page walk reports this address
mapped" as its precondition, so each method that reads a candidate is proved to do so only where the
walk reports a mapping. Whether the walk's own reads of page tables stay in physical memory is a
question of the tables, and `PageWalk.StaysIffPlain` answers it.

## Where the code departs from its documentation

The model follows the code; each departure has its exact condition.

- The wrapper tests the monitor before it looks up the original entry, so a call that enters while
  the monitor is off gets -ENOSYS; README.md:72 wants it to go through. `ThrottleOutcome.ReachesSyscall`
  says exactly which calls get through, `ThrottleOutcome.OffRefusesNewcomer` gives a run.
- A registration puts the wrapper into the table before its node is linked, and only then
  (`RcuTheorems.GapIsRegistration`); a deregistration may overtake a caller. Either way the lookup
  finds nothing and the caller gets -ENOSYS: runs `RcuWitness.GapMisses` and `RcuWitness.UnlinkMisses`.
  `WrapperTheorems.CallsOriginal` says when the call does get through.
- README.md:66 limits the calls invoked in a second, the code the tokens handed out. A thread may hold
  its token for any time, so no multiple of MAX bounds the calls: `ThrottleTiming.LetThroughBound` is the
  bound, `ThrottleWitness.LetThroughAttained` attains it for every MAX and any multiple of it held.
- The length codes 0 and 1 are swapped against src/throttling_dev.c:172-175. `DeviceRuns.NumberAgrees`
  says when this shows, `DeviceRuns.CountThenFetch` and `DeviceRuns.CountThenFetchUids` when the
  listings of user/interface.c:302-370 are cut short by it.
- `peak_delay` is tested outside its lock. `PeakDelay.MaximumIffSameDelays` says for which callers
  the record is still right, `PeakDelay.PeakIsMaximum` proves the form that tests again under the lock.
- `elapsed` is overwritten, not accumulated: `Monitor.ElapsedIsLastInterval` and
  `Monitor.ElapsedWhileOn`.
- On and off operations are not mutually excluded, so a monitor may be left on without its timer or
  off with it. `ThrottleTiming.TimerIffNotLost` says for every run when that is so: on without a timer
  exactly if the timer was last deleted while the flag was set; `ThrottleWitness.OverlapKillsTimer`,
  `ThrottleWitness.DeadForever` and `ThrottleWitness.OverlapStraysTimer` give the runs. Serialised
  operations never get there (`ThrottleTiming.SerialKeepsTimer`). The rate bound holds either way.
- The page walk does not know 1 GiB pages and cuts frame numbers to an int: `PageWalk.VerdictIsRight`
  says exactly when "mapped" and "not mapped" are right, `PageWalk.GiantPageMissed` and
  `PageWalk.AllOnesFrameMissed` are inputs where they are not.
- It follows pointers to tables with bits that the processor ignores, beyond physical memory. It stays
  in memory exactly if all it takes for pointers is plain (`PageWalk.StaysIffPlain`), and only then is its
  answer decided by memory (`PageWalk.AnswerIffInMemory`); `PageWalk.IgnoredBitLeavesMemory` is an input
  where it leaves.

## Model

| member | source | states |
|---|---|---|
| ThrottleSafety.TokenConservation | src/throttling_api.c:755-783 | in every run tokens are never negative and MAX is at least 1; grants since the last refill plus tokens left are the value last written, and all grants are at most 3 plus all refills, whatever MAX changes fall between the handler's read and its write |
| ThrottleSafety.NoLostWakeUp | src/throttling_api.c:769-770 | an enqueued thread that found its condition false, while the monitor is now off or tokens are positive, is still owed a wake-up: some enabled step of the handler or of a switch-off wakes it and lets it run |
| ThrottleSafety.AdmissionAccounting | src/throttling_api.c:755-783 | a call leaves the loop with exactly one token or, by a bypass or -EINTR, with none; an unmonitored call tries no decrement and never waits; grants equal token-admitted calls over a run |
| ThrottleSafety.NoBypassWhileOn | src/throttling_api.c:758-760 | on any stretch of a run during which the monitor stays on no call bypasses the tokens |
| ThrottleSafety.StatisticsExact | src/throttling_hidden.c:34-57 | the blocked counter is the number of waiting threads in every state; sum, peak and moving average are those of the true numbers of blocked threads at all handler firings |
| ThrottleSafety.DelayIsTotalWait | src/throttling_api.c:766-781 | a call's delay is the total of its completed waits, which are disjoint, so it fits between its entry and now |
| ThrottleDelay.DelayIsClock | src/throttling_api.c:766-781 | over any run: the end of a wait adds to the delay the clock time since the step that began it |
| ThrottleDelay.DelayElsewhere | src/throttling_api.c:676-781 | no other step changes the delay, and a call begins with none |
| ThrottleDelay.DelayIsClockTime | src/throttling_api.c:755-783 | the delay of a call is the sum of the clock differences over its waits |
| ThrottleDelay.EveryWaitCounts | src/throttling_api.c:763-783 | no wait is left out: one that began has been added before the call goes on, unless a signal ended it |
| ThrottleSafety.BlockedStep | src/throttling_api.c:763-773 | each step keeps the blocked counter equal to the number of threads between its increment and its decrement |
| ThrottleSafety.TokensStep | src/throttling_hidden.c:32-60 | each step keeps token conservation, also while the handler carries an old MAX |
| ThrottleSafety.QueuesStep | src/throttling_api.c:322-326 | each step keeps the wake-up debt of every queued sleeper whose condition holds |
| ThrottleSafety.AdmissionsStep | src/throttling_api.c:755-783 | each step keeps grants equal to admitted calls returned and about to return, and the same for bypasses |
| ThrottleSafety.StatsStep | src/throttling_hidden.c:34-57 | each step of the handler pays exactly the statistic it owes for the last sample |
| ThrottleSafety.CallsStep | src/throttling_api.c:670-783 | each step keeps the history of every call: tokens taken, decrements tried, waits in order |
| ThrottleSafety.InvStep | src/throttling_api.c:670-810 | every step of threads, timer, handler and controls keeps the whole invariant |
| ThrottleTiming.RateBound | src/throttling_hidden.c:60-66 | in every run, however on and off operations overlap, a window of HZ ticks holds at most one refill and sees at most the budget in force at its start plus that refill in grants |
| ThrottleTiming.TwoMaxPerPeriod | src/throttling_hidden.c:11-66 | in every run with MAX never above m, at most 2m grants in any window of HZ ticks |
| ThrottleTiming.TwoMaxOnceSet | src/throttling_hidden.c:32-66 | the same for a MAX that is at most m from some moment on, in every window that opens after a refill made since |
| ThrottleTiming.LetThroughBound | src/throttling_api.c:755-805 | in every run with MAX never above m, the calls that tokens let through in less than HZ ticks are at most 2m and those that held a token at the start |
| ThrottleTiming.TimerIffNotLost | src/throttling_api.c:300-341 | in every run, with no on/off operation under way: a monitor that is on has neither timer nor handler iff the timer was last deleted while the flag was set and not armed since; one that is off still has one iff it was armed while the flag was clear and neither deleted since nor given up by the handler |
| ThrottleTiming.SerialKeepsTimer | src/throttling_api.c:300-341 | if no on/off operation starts while another is under way, no timer is ever lost and none is left over |
| ThrottleTiming.TimerFollowsMonitor | src/throttling_api.c:300-341 | so with on/off serialised and at rest, the monitor is on iff a timer is armed or the handler is under way |
| ThrottleTiming.DueTimerFires | src/throttling_hidden.c:28-30 | a due timer can fire whenever the handler is at rest; on a monitor that is off that leaves no timer and nothing else changed |
| ThrottleTiming.StretchBound | src/throttling_api.c:755-783 | grants of any stretch of the log are paid by the budget at its start and the refills inside it |
| ThrottleTiming.ShortStretch | src/throttling_hidden.c:66 | a stretch shorter than a period holds at most one refill |
| ThrottleTiming.SpacedStep | src/throttling_hidden.c:17-66 | each step keeps refills at least HZ ticks apart |
| ThrottleTiming.PacedStep | src/throttling_hidden.c:17-66 | each step keeps every refill that can still come a period after those that were, also when operations overlap |
| ThrottleTiming.TimerStep | src/throttling_hidden.c:11-26 | each step keeps timer, handler and flag in agreement up to operations under way and to a timer lost or left over |
| ThrottleWitness.TwoMaxAttained | src/throttling_hidden.c:60-66 | for every m at least 1, a run that sets MAX to m once and makes 2m grants within one period, so the bound is tight |
| ThrottleWitness.LetThroughAttained | src/throttling_api.c:755-805 | for every m and k, a run with MAX m in which km threads hold a token and (k + 2)m calls are then let through within one tick: the bound is tight, and no multiple of MAX bounds the calls of a second |
| ThrottleWitness.OverlapKillsTimer | src/throttling_api.c:322-333 | a run in which an overlapping switch-on and switch-off leave the monitor on with no timer, which is lost in the sense above |
| ThrottleWitness.OverlapStraysTimer | src/throttling_api.c:300-333 | a run in which they leave the monitor off with its timer armed |
| ThrottleWitness.DeadForever | src/throttling_api.c:300-341 | from such a state no token is added until somebody switches the monitor again |
| ThrottleWitness.HandlerPass | src/throttling_hidden.c:28-67 | the handler's steps taken in a row add up to one whole epoch |
| ThrottleRelease.MeasureStep | src/throttling_api.c:755-783 | with the monitor off, every step of a thread in the loop lowers a measure over program counters and nothing raises it |
| ThrottleRelease.ReleaseProgress | src/throttling_api.c:322-326 | while a thread is in the loop and the monitor off, some enabled step lowers the measure |
| ThrottleRelease.SwitchOffReleasesEveryone | src/throttling_api.c:322-333 | if the monitor goes off and stays off, the threads in the loop take at most Measure further steps, and can go on until none is left |
| ThrottleDrain.RoundDrains | src/throttling_hidden.c:34-63 | one refill of constant MAX releases exactly min(n, MAX) of n blocked threads and samples n |
| ThrottleDrain.Drain | src/throttling_hidden.c:34-63 | k refills leave max(0, n - k * MAX) threads, the sum grows by the numbers left before each, the peak is at least n |
| ThrottleDrain.AllLeave | src/throttling_hidden.c:34-63 | after q = ceil(n / MAX) refills nobody is blocked and twice the growth of the sum is 2qn - MAX q (q - 1) |
| ThrottleDrain.SleepersMeanNoTokens | src/throttling_api.c:755-783 | between refills nobody sleeps while a token is left |
| ThrottleRounds.RoundExists | src/throttling_hidden.c:28-67 | from every settled state with an armed timer the timer, the handler and the woken threads can run to the next settled state |
| ThrottleRounds.EveryoneDrains | src/throttling_api.c:755-783 | the blocked threads can all be drained in ceil(n / MAX) epochs, and in no fewer |
| ThrottleOutcome.ReachesSyscall | src/throttling_api.c:689-809 | a call reaches the system call iff the monitor was on at its entry, its lookup found the node and no signal ended its wait |
| ThrottleOutcome.OffRefusesNewcomer | src/throttling_api.c:689-692 | a run in which a call after a switch-off comes back without its system call |
| ThrottleOutcome.SignalInterrupts | src/throttling_api.c:769-778 | a signal ends the wait of any thread whose condition stays false: running alone it takes no token, leaves the blocked count and comes back with -EINTR |
| ThrottleOutcome.OnlySignalsInterrupt | src/throttling_api.c:769-778 | over any run a signal is pending iff one came since the thread's last return, and only a call for which one came is interrupted |
| ThrottleOutcome.InterruptedCall | src/throttling_api.c:755-778 | a run from load in which a fourth call waits and is interrupted |
| WrapperCall.AdmissionRuns | src/throttling_api.c:670-807 | the admission part of a common run is a run of the admission protocol |
| WrapperCall.RegistryRuns | src/throttling_api.c:26-296 | the registry part of a common run is a run of the registries |
| WrapperTheorems.CallsOriginal | src/throttling_api.c:689-807 | in one run of both: a call reaches the system call iff the monitor was on at its entry, no signal ended its wait and its own lookup kept a pointer; then through the pristine entry of a number registered at some moment of the call, and always if the number stayed registered from entry to return |
| WrapperTheorems.OnlyRegisteredWait | src/throttling_api.c:699-723 | a caller is let past the tokens unasked only if user id and name were both missing at some moment of the call, and made to take one only if one of them was registered at some moment of it |
| WrapperTheorems.HonestStep | src/throttling_api.c:699-718 | each step keeps the answers of a call those of finished sections inside the call, in the order of the code |
| WrapperTheorems.SettledStep | src/throttling_api.c:689-726 | each step keeps a call past its lookups acting on their answers |
| WrapperTheorems.StepsAreDefined | src/throttling_api.c:670-807 | in a reachable state of both every enabled step can be taken |
| WrapperTheorems.LookupGoesOn | src/throttling_api.c:699-718 | a thread at its lookups always has a step of its own to go on with |
| MovingAverage.FixedPointError | src/throttling_hidden.c:46-57 | for every sample sequence the stored average exceeds the exact rational one by less than 3, and is never below it |
| MovingAverage.ZeroIffAllSamplesZero | src/throttling_hidden.c:49-52 | the stored average is 0 iff all samples were, so the first-step test is exact |
| MovingAverage.AverageAtMostPeak | src/throttling_hidden.c:40-57 | the stored average is at most 1024 times the peak |
| MovingAverage.PeakIsMaximum | src/throttling_hidden.c:40-42 | the peak bounds every sample and is one of them |
| MovingAverage.ConstantSampleApproaches | src/throttling_hidden.c:53-56 | a constant sample b brings the average strictly closer to its limit at every step and holds it there |
| MovingAverage.ConstantSampleConverges | src/throttling_hidden.c:53-56 | after finitely many steps the average stays in [1024b, 1024b + 3], from below at exactly 1024b |
| Monitor.EpochState.constructor | src/throttling_mod.c:32-47 | the state that load time leaves: monitor on, MAX and tokens 3, timer armed |
| Monitor.EpochState.EpochHandler | src/throttling_hidden.c:28-67 | the handler run in one go makes the new values of one epoch, or none if the monitor is off |
| Monitor.EpochState.CoreSetup | src/throttling_hidden.c:11-21 | stamps the start of the interval and arms the timer one period ahead |
| Monitor.EpochState.CoreCleanup | src/throttling_hidden.c:23-26 | disarms the timer and nothing else |
| Monitor.EpochState.SwitchOnMonitor | src/throttling_api.c:300-315 | turns a monitor on that was off, stamps the start and arms the timer one period ahead; one that was on gets -EALREADY (-114) and no change at all |
| Monitor.EpochState.SwitchOffMonitor | src/throttling_api.c:318-341 | turns a monitor off that was on, wakes everybody, records the interval, disarms; one that was off gets -EALREADY and no change at all |
| Monitor.EpochState.SetMaxSyscall | src/throttling_api.c:345-358 | takes a positive limit, refuses others with -EINVAL |
| Monitor.EpochState.GetThreadStats | src/throttling_api.c:362-393 | reports the moving average, or sum, time on and peak |
| Monitor.HandlerRefines | src/throttling_hidden.c:28-67 | the interleaved handler steps can realise exactly what the method computes, which is nothing if the monitor is off |
| Monitor.SwitchOnRefines | src/throttling_api.c:300-315 | the steps of a switch-on in a row have the effect of the method; a refused one has none |
| Monitor.SwitchOffRefines | src/throttling_api.c:318-341 | the steps of a switch-off in a row, with the wait for a handler that is running, have the effect of the method after what that handler still does; a refused one has none |
| Monitor.ElapsedIsLastInterval | src/throttling_api.c:328-384 | asked while off, after any history of on-intervals: the time reported is the last one's, and equals the total iff all earlier ones are empty |
| Monitor.ElapsedWhileOn | src/throttling_api.c:380-384 | asked while on: the last completed interval plus the one in progress, which is the total iff all earlier ones are empty |
| RcuHeap.LinkKeepsOk | src/throttling_api.c:76 | head insertion of an absent key keeps the lists: links go to strictly older nodes, back links agree, every node still reaches all live older ones |
| RcuHeap.UnlinkKeepsOk | src/throttling_api.c:125 | unlinking keeps the lists, with the unlinked node's own link frozen |
| RcuHeap.LinkIsOneWrite | src/throttling_api.c:76 | of what readers follow, a linking changes one bucket's head, so they see it as one write |
| RcuHeap.UnlinkIsOneWrite | src/throttling_api.c:125 | an unlinking changes one head or one link |
| RcuSafety.OthersKeepLists | src/throttling_api.c:99-104 | while a writer holds the lock nobody else's step changes a list, so its search may be taken as one step |
| RcuSafety.SearchDecides | src/throttling_api.c:99-104 | the search loop finds a node iff the key is linked, and then that node |
| RcuSafety.CoupledStep | src/throttling_api.c:51-129 | each step keeps flag, table entry and node together, up to what the lock holder is doing |
| RcuSafety.CountersStep | src/throttling_api.c:77-127 | each step keeps the three lengths equal to the linked nodes and the flags, up to what the lock holder owes |
| RcuSafety.TableStep | src/throttling_api.c:51-129 | each step keeps lists, lock, table, flags and saved entries in agreement |
| RcuReclaim.ReadersStep | src/throttling_api.c:153-204 | each step keeps every open section's cursor visible to it and its copies distinct |
| RcuReclaim.GraceStep | src/throttling_api.c:125-134 | each step keeps every disposal waiting for all sections open since before its unlink |
| RcuReclaim.FreedStep | src/throttling_api.c:131-134 | each step keeps freed nodes out of the sight of all open sections |
| RcuReclaim.InvStep | src/throttling_api.c:26-296 | every step of readers and writers keeps the whole invariant |
| RcuTheorems.StepsAreDefined | src/throttling_api.c:26-296 | in a reachable state every enabled step can be taken: the model never gets stuck on a bad index |
| RcuTheorems.TableMatchesRegistry | src/throttling_api.c:51-129 | whenever the lock is free: flag, wrapper in the table and node go together, one node per key with the pristine entry, lengths exact |
| RcuTheorems.DeregisteringAllRestoresTable | src/throttling_api.c:117-122 | a run that ends with nothing registered has restored the initial table |
| RcuTheorems.GapIsRegistration | src/throttling_api.c:68-76 | the wrapper is in the table without a node iff a registration is between its table write and its link |
| RcuWitness.GapMisses | src/throttling_api.c:68-76 | a run in which a lookup made while the wrapper is in the table, before the node is linked, ends with a NULL pointer |
| RcuWitness.UnlinkMisses | src/throttling_api.c:117-125 | a run in which the number is registered and the lock free, a deregistration unlinks its node, and a lookup made after that ends with a NULL pointer |
| RcuWitness.RegisteredIsFound | src/throttling_api.c:140-177 | a run in which a user id is registered, with the lock free again and the length 1, and a lookup then finds it |
| RcuOperations.RegistrationMeans | src/throttling_api.c:26-261 | over any run, for all three tables: a registration answers 0 iff one of its own steps took its key from absent to linked, and -EEXIST only if the key was linked at some moment of it |
| RcuOperations.DeregistrationMeans | src/throttling_api.c:84-296 | a deregistration answers 0 iff one of its own steps made its key absent, and -ENOENT only if the key was absent at some moment of it |
| RcuOperations.DeregistrationFrees | src/throttling_api.c:125-134 | one that answers 0 has freed the node it unlinked, and its statistics, by the time it returns |
| RcuOperations.OtherKeysStay | src/throttling_api.c:26-296 | no operation makes any other key appear or disappear |
| RcuOperations.OperationEnds | src/throttling_api.c:26-296 | an operation takes at most 14 own steps |
| RcuOperations.NobodyIsStuck | src/throttling_api.c:26-296 | and can take them: else it waits for a lock whose holder can step, or for sections whose readers can |
| RcuOperations.ReadersNeverWait | src/throttling_api.c:456-489 | whatever writers do, a read section can be opened, goes on and can be closed |
| RcuOperations.LookupsEnd | src/throttling_api.c:456-465 | a lookup goes to ever older nodes, so it ends |
| RcuTheorems.FaultUnreachable | src/throttling_api.c:106-112 | no deregistration ever returns -EFAULT |
| RcuTheorems.WrapperNeverCallsItself | src/throttling_api.c:709-723 | the pointer kept by a lookup is NULL or the pristine entry of its number, so never the wrapper, across deregistration and registration again |
| RcuTheorems.SafeReclamation | src/throttling_api.c:125-134 | what an open section can reach from the node it holds is freed neither itself nor in its statistics |
| RcuLookup.LookupFinds | src/throttling_api.c:456-465 | a key whose node stays linked throughout the section is found, at that node |
| RcuLookup.LookupLinearizable | src/throttling_api.c:452-489 | the answer of a lookup is right at some moment of its section |
| RcuLookup.WrapperPointer | src/throttling_api.c:709-718 | at some moment of the lookup the wrapper's pointer is NULL iff the number has no node then; otherwise it is the pristine entry, never the wrapper |
| RcuLookup.EnumerationFinds | src/throttling_api.c:554-566 | an enumeration with room left lists every node linked throughout |
| RcuLookup.EnumerationSound | src/throttling_api.c:554-604 | an enumeration never lists a key twice, even if removed and added again meanwhile, nothing that was not linked at some moment of it, and no more than asked for |
| RcuScan.ListingSound | src/throttling_api.c:507-536 | a listing of system calls ascends and keeps to the smaller of the limit and the length at its start; each number in it was flagged at some moment of the scan, and each flagged throughout is in it unless the limit was reached |
| RcuScan.CompleteStep | src/throttling_api.c:522-530 | each step keeps every number flagged so far and passed by the scan in the listing |
| PeakDelay.OneCallersRecord | src/throttling_api.c:643-667 | whenever stats_lock is free the delay, user and name on record are one caller's |
| PeakDelay.PeakIsMaximum | src/throttling_api.c:650-654 | if test and write are not interleaved, or the test is repeated under the lock, the record only grows and ends as the longest delay |
| PeakDelay.MaximumIffSameDelays | src/throttling_api.c:650-654 | the code records the longest delay under every schedule iff no two callers waited for different times |
| PeakDelay.RaceLosesPeak | src/throttling_api.c:650-654 | for any caller with a positive delay shorter than another's, a run ends with the shorter one on record |
| CStrings.StrncmpIsTextEquality | src/throttling_api.c:242 | strncmp is 0 iff the two buffers hold the same C string, whatever follows the terminators |
| CStrings.StoredMatchesText | src/throttling_api.c:231-242 | the stored copy keeps the string, and compares equal to exactly the probes with the same string and so the same bytes to hash |
| CStrings.FromUserText | src/throttling_dev.c:356-363 | a user string reaches the registry as its first 15 bytes up to a terminator |
| CStrings.NameRoundTrip | src/throttling_dev.c:353-367 | a name of at most 15 bytes survives command buffer and node unchanged |
| CStrings.TextIsName | src/throttling_dev.c:157-162 | a terminated buffer holds a string of at most 15 bytes |
| CStrings.NameFacts | src/throttling_api.c:429 | strscpy into 16 bytes leaves a string of at most 15, all of a terminated buffer's, and the same when repeated |
| CStrings.NameInNumbers | src/throttling_api.c:218-261 | buffers of 16 bytes, names of at most 15, cut at the first terminator |
| Buckets.KeyInBucket | src/throttling_api.c:156-161 | a key is registered iff its own bucket holds it |
| Buckets.AddedKey | src/throttling_api.c:170 | head insertion of a new key adds exactly that key and keeps keys unique |
| Buckets.RemovedKey | src/throttling_api.c:191 | unlinking a node removes exactly its key |
| Buckets.FlattenIsKeySet | src/throttling_api.c:556-564 | the walk over all buckets lists every registered key exactly once |
| Buckets.PrefixIsFetch | src/throttling_api.c:546-564 | its first max items are distinct members, as many as asked for or as there are |
| HashTable.HashTable.Add | src/throttling_api.c:76 | head insertion into a bucket of linked nodes; all other buckets as before |
| HashTable.HashTable.Delete | src/throttling_api.c:125 | unlinking of a found node; the rest of its bucket in order, all others as before |
| HashTable.HashTable.Find | src/throttling_api.c:156-161 | the first node of the bucket that matches, or none matches |
| HashTable.HashTable.CollectBucket | src/throttling_api.c:556-564 | appends the items of one bucket in order until the limit is reached, and says whether it was |
| HashTable.HashTable.Collect | src/throttling_api.c:556-564 | the first max items of the walk over all buckets |
| SyscallRegistry.SyscallRegistry.RegisterSystemCall | src/throttling_api.c:26-81 | adds a number that was not registered, else -EEXIST; table, flag, node and length stay in agreement |
| SyscallRegistry.SyscallRegistry.DeregisterSystemCall | src/throttling_api.c:84-137 | removes a registered number, else -ENOENT, never -EFAULT; restores its table entry |
| SyscallRegistry.SyscallRegistry.Search | src/throttling_api.c:412-417 | finds a node iff the number is registered, and it stores the pristine entry |
| SyscallRegistry.SyscallRegistry.CheckSyscall | src/throttling_api.c:437-450 | answers 1 iff the number is registered |
| SyscallRegistry.SyscallRegistry.GetAllSyscalls | src/throttling_api.c:507-536 | the smallest registered numbers in ascending order, as many as asked for or as there are |
| SyscallRegistry.SyscallRegistry.TableTells | src/throttling_api.c:67-122 | a number is registered iff the table holds the wrapper there; the table is the original one iff nothing is registered |
| MonitoredSyscalls.MonitoredSyscalls.RegisterSystemCall | src/throttling_api.c:46-58 | a new number gets a record of its own with no delay; one that is registered keeps its record, and all others theirs |
| MonitoredSyscalls.MonitoredSyscalls.DeregisterSystemCall | src/throttling_api.c:125-134 | the record goes with its number; all others stay |
| MonitoredSyscalls.MonitoredSyscalls.FindStats | src/throttling_api.c:412-417 | the node found points to the record of its own number |
| MonitoredSyscalls.MonitoredSyscalls.GetSyscallStats | src/throttling_api.c:395-434 | the record of a registered number, nothing for others; the name is a string of at most 15 bytes whatever the record's memory held |
| MonitoredSyscalls.MonitoredSyscalls.CheckAndSetStatistic | src/throttling_api.c:643-667 | a longer delay of a registered number takes its record with user and name; no other record changes |
| UidRegistry.UidRegistry.RegisterUserId | src/throttling_api.c:140-177 | adds the id, or -EEXIST iff it was there |
| UidRegistry.UidRegistry.DeregisterUserId | src/throttling_api.c:181-213 | removes the id, or -ENOENT iff it was not there |
| UidRegistry.UidRegistry.CheckUid | src/throttling_api.c:452-468 | answers 1 iff the id is registered |
| UidRegistry.UidRegistry.GetAllUids | src/throttling_api.c:539-571 | distinct registered ids, as many as asked for or as there are |
| ProgRegistry.ProgRegistry.RegisterProgName | src/throttling_api.c:218-261 | adds the C string of the buffer, or -EEXIST iff the same string was there |
| ProgRegistry.ProgRegistry.DeregisterProgName | src/throttling_api.c:265-296 | removes the C string, or -ENOENT iff it was not there |
| ProgRegistry.ProgRegistry.CheckProgname | src/throttling_api.c:470-489 | answers 1 iff the C string is registered |
| ProgRegistry.ProgRegistry.GetAllProgs | src/throttling_api.c:573-604 | distinct registered strings, as many as asked for or as there are |
| ProgRegistry.ProgRegistry.ProgsAreNames | src/throttling_api.c:231-233 | every registered name is a string of at most 15 bytes |
| Device.Device.Ioctl | src/throttling_dev.c:38-441 | every command changes the abstract state as specified, answers as specified, and does nothing for a user who is not root unless it is a query |
| Device.Device.Query | src/throttling_dev.c:47-316 | the answers of the open commands: range checks, membership, the statistics record, lengths, listings, and the errors for a zero size or a null list |
| Device.Device.Update | src/throttling_dev.c:326-440 | the new abstract state and result code of each root command |
| Device.Device.RecordDelay | src/throttling_api.c:643-667 | what a caller that waited does to the abstract state: at most its own number's record changes |
| Device.Device.GetLenght | src/throttling_api.c:491-505 | the size of the set that the code, not the documentation, ties to each number |
| Device.CheckName | src/throttling_dev.c:157-162 | a check command asks for the first 15 bytes of its field up to a terminator |
| DeviceRuns.LastWordDecides | src/throttling_dev.c:326-412 | after any run of commands a key is registered iff the last root command that names it registers it |
| DeviceRuns.OnlyRootUpdatesMatter | src/throttling_dev.c:319-324 | dropping every query and every command of other users from a run changes no final state |
| DeviceRuns.StateStaysOk | src/throttling_dev.c:333-423 | over any run numbers stay in range, registered names and those on record stay short strings, the limit stays positive |
| DeviceMonitor.MonitorFollowsRoot | src/throttling_dev.c:414-440 | after any run the monitor is what root's last switch said and MAX root's last positive limit; tokens, blocked count and statistics are changed by no command |
| DeviceMonitor.CoreStaysOk | src/throttling_dev.c:425-440 | over any run the timer is armed iff the monitor is on, and nobody sleeps while it is off |
| DeviceMonitor.OnSince | src/throttling_dev.c:425-429 | from root's switch-on until root's next switch-off the interval started then and the first epoch is one period later, however often it is switched on again |
| DeviceMonitor.OffSince | src/throttling_dev.c:431-435 | from root's switch-off until root's next switch-on there is no timer and no sleeper, and the time reported is that interval's |
| DeviceMonitor.CodesOfUpdates | src/throttling_dev.c:319-440 | the code of every changing command in numbers: 0, or why not |
| DeviceMonitor.ChecksTellLastWord | src/throttling_dev.c:110-168 | after any run a check answers 1 or 0 as root's last word on the key was, for any user |
| DeviceMonitor.StatisticsTold | src/throttling_dev.c:48-108 | what the two statistics commands report |
| DeviceMonitor.ListingsTold | src/throttling_dev.c:196-314 | a listing holds registered things only, none twice, as many as there is room for; system calls the smallest, ascending |
| DeviceMonitor.NumbersTold | src/throttling_dev.c:176-194 | the three lengths by code |
| DeviceMonitor.RecordLasts | src/throttling_dev.c:327-384 | a number registered anew starts with an empty record and keeps it, whatever is commanded, until root deregisters it |
| DeviceRuns.CodeTellsChange | src/throttling_dev.c:326-412 | a registration or deregistration answers 0 iff it changed the state |
| DeviceRuns.RegisterThenDeregister | src/throttling_dev.c:326-412 | deregistering what was just registered gives the old state back iff it was new |
| DeviceRuns.NamesByFifteenBytes | src/throttling_dev.c:157-162 | a registered user string and a checked field mean the same name iff strncmp says so; names of at most 15 bytes are taken as they are |
| DeviceRuns.NumberAgrees | src/throttling_dev.c:172-194 | the number reported is the documented one iff the code asked is 2 or there are as many user ids as system calls |
| DeviceRuns.CountThenFetch | user/interface.c:302-335 | the listing made by asking for the number and fetching that many, or nothing for 0, is complete iff there are at least as many user ids as system calls |
| DeviceRuns.CountThenFetchUids | user/interface.c:337-370 | and that of the user ids iff there are at least as many system calls as user ids |
| DeviceRuns.CountThenFetchProgs | user/interface.c:372-400 | the same two calls list exactly the registered program names |
| DeviceRuns.LongestDelayIsKept | src/throttling_api.c:643-667 | after any delays reported one after the other the record holds the longest, with user and name of the first caller that had it; no other record changes |
| PageWalk.StaysIffPlain | src/my_vtpmo.c:82-157 | for every address the walk reads physical memory only iff cr3 and the pointers to tables on the processor's walk, and for a 1 GiB page its entry and what is read through it as a pointer, have no bit from 52 to 62 |
| PageWalk.AnswerIffInMemory | src/my_vtpmo.c:82-178 | the frame of the entry the architecture maps the address by (for a 1 GiB page, of what its contents read as entries lead to), or no mapping if there is none, is reported whatever lies beyond memory iff the walk stays in memory |
| PageWalk.ReportedMapped | src/my_vtpmo.c:82-178 | the address is reported mapped whatever lies beyond memory iff the walk stays in memory, finds an entry and the entry's frame number is not all ones in its low 32 bits |
| PageWalk.VerdictIsRight | src/my_vtpmo.c:73-178 | "mapped" and "not mapped" are both right, whatever lies beyond memory, iff the walk stays in memory and for a mapped address finds an entry that does not look like no mapping |
| PageWalk.MapIsMapped | src/my_vtpmo.c:82-178 | "mapped" is never wrong, whatever lies beyond memory, iff the address is mapped or the pointers on the processor's walk are plain |
| PageWalk.FrameOfPage | src/my_vtpmo.c:143-176 | the number reported is the 32-bit signed number with the low bits of the frame of the entry's address bits, which lies in the page that maps the address, whatever the entry's other bits |
| PageWalk.SameBits | src/my_vtpmo.c:63-66 | the walk tests the present bit 0 and the page-size bit 7 of an entry, for every word |
| PageWalk.SamePage | src/my_vtpmo.c:67-70 | the answer is constant on a 4 KiB page |
| PageWalk.SameLargePage | src/my_vtpmo.c:143-153 | and on 2 MiB wherever the walk ends at an entry for 2 MiB, whatever the pointers hold; the architecture's page is constant there too |
| PageWalk.GiantPageMissed | src/my_vtpmo.c:123-141 | tables with a 1 GiB page whose addresses are reported unmapped |
| PageWalk.AllOnesFrameMissed | src/my_vtpmo.c:174-176 | tables that map an address whose frame is taken for "no mapping" |
| PageWalk.IgnoredBitLeavesMemory | src/my_vtpmo.c:104-157 | tables that map an address, with an ignored bit in a pointer to a table, for which the walk reads beyond physical memory |
| TableFinder.EndsMakeReadable | src/my_usctm.c:99-106 | if the first and the last entry of the pattern are mapped, all of it can be read |
| TableFinder.Finder.GoodArea | src/my_usctm.c:83-91 | 1 iff no entry from 1 to 133 equals the free entry |
| TableFinder.Finder.PatternMatches | src/my_usctm.c:109-121 | true iff a table starts at the address |
| TableFinder.Finder.ValidatePage | src/my_usctm.c:94-130 | records the lowest table that starts in a mapped page, or there is none that can be read |
| TableFinder.Finder.RestUnreadable | src/my_usctm.c:99-106 | the early exit skips no table that can be read |
| TableFinder.Finder.SyscallTableFinder | src/my_usctm.c:133-148 | records the lowest table in the range, or there is none and nothing changes |
| TableFinder.PatternInNumbers | src/my_usctm.c:55-121 | the pattern in numbers: 237 readable words, entries 134, 174, 182, 183, 214, 215 and 236 the same aligned kernel address, 1 to 133 another |
| TableFinder.ReadableIsPresent | src/my_usctm.c:101-121 | a pattern can be read, whatever lies beyond memory, iff for each of its entries the walk stays in memory and sees the page; then all of it is present for the processor |

## Left out

- Unloading of the module and `cleanup_rcu` (src/throttling_api.c:608-640): it frees without a grace period and leaks statistics; runs start after `init_module` and never unload.
- Dispatcher patching, control registers, kprobes and inline assembly in src/my_usctm.c: effects outside the model.
- Device and class creation, `printk`, failing user copies and failing allocations: copies and allocations succeed.
- Internals of jhash, hash bucketing, RCU, spin locks, timers and wait queues: hashing and bucketing are arbitrary functions, the rest behaves as documented.
- Jiffies wrap-around, counter overflow and `jiffies_to_msecs`: ticks and counts are unbounded naturals, times are in ticks.
- Fetch sizes above INT_MAX, which the code turns into negative ints.
- What a read beyond physical memory does: it faults or returns anything; the statements about the walk hold for every value.
- Starvation of a single thread: newcomers may take tokens before sleepers, so no bound per thread holds.
- ThrottleDrain.Drain: takes woken threads as having retried and slept again before the next refill, with no arrivals, signals or control operations.
- Arming a pending timer again through `timer_setup`, which overlapping switch-ons can do: outside the documented timer interface, modelled as setting its expiry.
- Device.Device.Ioctl: commands run one after another; their interleaving is the subject of the `Rcu` and `Throttle` modules.
- user/interface.c and user/user.c beyond the count-then-fetch listing: menus and a workload.
