// The command layer (src/throttling_dev.c:38-441) over the registries and the monitor: what
// each command does to four abstract values, and what it answers.
module Device {
  import opened Buckets
  import opened CStrings
  import opened Errno
  import opened Monitor
  import opened Wrappers
  import M = MonitoredSyscalls
  import ProgRegistry
  import RcuHeap
  import SyscallRegistry
  import UidRegistry

  // What the user passes; `user` is the string at a user address, `raw` a 16-byte field.
  // `hasList` says whether the address of the result list is not null.
  datatype Command =
    | GetThreadStats(kind: int)
    | GetSyscallStats(nr: int)
    | CheckSyscall(nr: int)
    | CheckUid(uid: nat)
    | CheckProg(raw: seq<Byte>)
    | GetNumber(choose: int)
    | GetAllSyscalls(max: nat, hasList: bool)
    | GetAllUids(max: nat, hasList: bool)
    | GetAllProgs(max: nat, hasList: bool)
    | RegisterSyscall(nr: int)
    | RegisterUid(uid: nat)
    | RegisterProg(user: seq<Byte>)
    | DeregisterSyscall(nr: int)
    | DeregisterUid(uid: nat)
    | DeregisterProg(user: seq<Byte>)
    | SetMaxCalls(newMax: int)
    | MonitorOn
    | MonitorOff
    | Unknown

  // `junk` is what freshly allocated memory holds.
  datatype Request = Request(cmd: Command, root: bool, now: nat, junk: seq<Byte>)

  // What is copied back to the user, when something is.
  datatype Output =
    | Nothing
    | Stats(stats: ThreadStats)
    | SyscallStats(nr: nat, peak: M.Peak)
    | Flag(check: int)
    | Number(n: int)
    | Numbers(numbers: seq<nat>)
    | Names(names: seq<seq<Byte>>)

  datatype Reply = Reply(code: int, out: Output)

  // The abstract state: the registered numbers with their peak records, two sets, and the
  // monitor's values.
  datatype State = State(peaks: map<nat, M.Peak>, uids: set<nat>, progs: set<seq<Byte>>, core: Core)
  {
    function Nrs(): set<nat> { peaks.Keys }
  }

  // NR_syscalls and HZ
  datatype Config = Config(nrSyscalls: nat, hz: nat)

  predicate InRange(c: Config, nr: int)
  {
    0 <= nr < c.nrSyscalls
  }

  // Commands open to every user.
  predicate IsQuery(cmd: Command)
  {
    || cmd.GetThreadStats? || cmd.GetSyscallStats? || cmd.CheckSyscall? || cmd.CheckUid? || cmd.CheckProg?
    || cmd.GetNumber? || cmd.GetAllSyscalls? || cmd.GetAllUids? || cmd.GetAllProgs?
  }

  predicate WellFormed(cmd: Command)
  {
    cmd.CheckProg? ==> IsBuffer(cmd.raw)
  }

  function Next(c: Config, a: State, q: Request): State
  {
    if IsQuery(q.cmd) || !q.root then a
    else
      match q.cmd
      case RegisterSyscall(nr) =>
        if InRange(c, nr) && nr !in a.peaks then a.(peaks := a.peaks[nr := M.Peak(0, 0, NameOf(q.junk))]) else a
      case DeregisterSyscall(nr) => if InRange(c, nr) then a.(peaks := a.peaks - {nr}) else a
      case RegisterUid(u) => a.(uids := a.uids + {u})
      case DeregisterUid(u) => a.(uids := a.uids - {u})
      case RegisterProg(user) => a.(progs := a.progs + {NameOf(user)})
      case DeregisterProg(user) => a.(progs := a.progs - {NameOf(user)})
      case SetMaxCalls(m) => if m > 0 then a.(core := a.core.(max := m)) else a
      case MonitorOn => a.(core := OnCore(a.core, q.now, c.hz))
      case MonitorOff => a.(core := OffCore(a.core, q.now))
      case _ => a
  }

  // Lengths are reported by codes that swap the first two kinds.
  function CountOf(a: State, choose: int): int
  {
    if choose == 0 then |a.uids| else if choose == 1 then |a.Nrs()| else |a.progs|
  }

  function FetchCode(max: nat, hasList: bool): int
  {
    if max == 0 || !hasList then EFAULT else OK
  }

  ghost predicate QueryOk(c: Config, a: State, q: Request, r: Reply)
  {
    match q.cmd
    case GetThreadStats(k) =>
      if k == 0 then r == Reply(OK, Stats(ThreadStats(0, 0, a.core.sum, ReportedElapsed(a.core, q.now), a.core.peak)))
      else if k == 1 then r == Reply(OK, Stats(ThreadStats(1, a.core.avg, 0, 0, 0)))
      else r == Reply(EINVAL, Nothing)
    case GetSyscallStats(nr) =>
      r == if !InRange(c, nr) then Reply(EINVAL, Nothing)
           else if nr in a.peaks then Reply(OK, SyscallStats(nr, a.peaks[nr]))
           else Reply(ENOENT, Nothing)
    case CheckSyscall(nr) =>
      r == if InRange(c, nr) then Reply(OK, Flag(if nr in a.peaks then 1 else 0)) else Reply(-1, Nothing)
    case CheckUid(u) => r == Reply(OK, Flag(if u in a.uids then 1 else 0))
    case CheckProg(raw) => r == Reply(OK, Flag(if NameOf(raw) in a.progs then 1 else 0))
    case GetNumber(k) => r == if 0 <= k <= 2 then Reply(OK, Number(CountOf(a, k))) else Reply(EINVAL, Nothing)
    case GetAllSyscalls(m, l) =>
      && r.code == FetchCode(m, l)
      && if r.code == OK && a.peaks != map[]
         then r.out.Numbers? && SyscallRegistry.IsSmallest(r.out.numbers, a.Nrs(), m) else r.out == Nothing
    case GetAllUids(m, l) =>
      && r.code == FetchCode(m, l)
      && if r.code == OK && a.uids != {} then r.out.Numbers? && IsFetch(r.out.numbers, a.uids, m) else r.out == Nothing
    case GetAllProgs(m, l) =>
      && r.code == FetchCode(m, l)
      && if r.code == OK && a.progs != {} then r.out.Names? && IsFetch(r.out.names, a.progs, m) else r.out == Nothing
    case _ => true
  }

  function UpdateCode(c: Config, a: State, cmd: Command): int
  {
    match cmd
    case RegisterSyscall(nr) => if !InRange(c, nr) then EINVAL else if nr in a.peaks then EEXIST else OK
    case DeregisterSyscall(nr) => if !InRange(c, nr) then EINVAL else if nr in a.peaks then OK else ENOENT
    case RegisterUid(u) => if u in a.uids then EEXIST else OK
    case DeregisterUid(u) => if u in a.uids then OK else ENOENT
    case RegisterProg(user) => if NameOf(user) in a.progs then EEXIST else OK
    case DeregisterProg(user) => if NameOf(user) in a.progs then OK else ENOENT
    case SetMaxCalls(m) => if m <= 0 then EINVAL else OK
    case MonitorOn => if a.core.on then EALREADY else OK
    case MonitorOff => if a.core.on then OK else EALREADY
    case _ => EINVAL
  }

  ghost predicate ReplyOk(c: Config, a: State, q: Request, r: Reply)
  {
    if IsQuery(q.cmd) then QueryOk(c, a, q, r)
    else r == Reply(if q.root then UpdateCode(c, a, q.cmd) else EPERM, Nothing)
  }

  lemma CheckName(raw: seq<Byte>)
    requires IsBuffer(raw)
    ensures Text(FromCheck(raw)) == NameOf(raw)
  {
    var buf := FromCheck(raw);
    StrnlenFacts(buf, COMM_LEN);
    assert buf[..COMM_LEN] == buf;
    ShortStrnlen(buf, COMM_LEN);
    SamePrefixStrnlen(buf, raw, COMM_LEN - 1);
  }

  lemma {:induction false} SamePrefixStrnlen(a: seq<Byte>, b: seq<Byte>, n: nat)
    requires n <= |a| && n <= |b| && a[..n] == b[..n]
    ensures Strnlen(a, n) == Strnlen(b, n)
    ensures a[..Strnlen(a, n)] == b[..Strnlen(b, n)]
  {
    if n > 0 {
      assert a[0] == a[..n][0] == b[..n][0] == b[0];
      assert a[1..][..n - 1] == a[..n][1..] == b[..n][1..] == b[1..][..n - 1];
      SamePrefixStrnlen(a[1..], b[1..], n - 1);
      var k := Strnlen(a, n);
      assert a[..k] == a[..n][..k] == b[..n][..k] == b[..k];
    }
  }

  class Device {
    const sys: M.MonitoredSyscalls
    const uids: UidRegistry.UidRegistry
    const progs: ProgRegistry.ProgRegistry
    const monitor: EpochState
    const hz: nat

    ghost function Repr(): set<object>
      reads sys, uids, progs
    {
      {monitor} + sys.Repr + uids.Repr + progs.Repr
    }

    ghost predicate Valid()
      reads sys, uids, progs, Repr()
    {
      && sys in sys.Repr && uids in uids.Repr && progs in progs.Repr && monitor !in sys.Repr + uids.Repr + progs.Repr
      && sys.Repr !! uids.Repr && sys.Repr !! progs.Repr && uids.Repr !! progs.Repr
      && sys.Valid() && uids.Valid() && progs.Valid()
    }

    function Settings(): Config
    {
      Config(sys.registry.table.Length, hz)
    }

    ghost function Abs(): State
      reads sys, uids, progs, monitor
    {
      State(sys.peaks, uids.uids, progs.progs, monitor.View())
    }

    // The state after init_module.
    constructor (entries: seq<RcuHeap.Entry>, sysSlot: nat -> nat, uidSlot: nat -> nat,
                 progSlot: seq<Byte> -> nat, jiffies: nat, hz: nat)
      requires forall n :: 0 <= n < |entries| ==> entries[n] != RcuHeap.Wrapper
      requires IntoSlots(sysSlot, RcuHeap.SLOTS) && IntoSlots(uidSlot, RcuHeap.SLOTS)
      requires IntoSlots(progSlot, RcuHeap.SLOTS)
      ensures Valid() && fresh(Repr())
      ensures Abs() == State(map[], {}, {}, Core(true, 3, 3, 0, 0, 0, 0, jiffies, 0, Some(jiffies + hz), {}))
    {
      hide M.MonitoredSyscalls.Valid, UidRegistry.UidRegistry.Valid, ProgRegistry.ProgRegistry.Valid;
      var s := new M.MonitoredSyscalls(entries, sysSlot);
      var u := new UidRegistry.UidRegistry(uidSlot);
      assert s.Repr !! u.Repr && s.Valid();
      var p := new ProgRegistry.ProgRegistry(progSlot);
      var m := new EpochState(jiffies, hz);
      assert s.Repr !! p.Repr && u.Repr !! p.Repr && s.Valid() && u.Valid() && p.Valid();
      sys, uids, progs, monitor, this.hz := s, u, p, m, hz;
    }

    method Ioctl(q: Request) returns (r: Reply)
      requires Valid() && WellFormed(q.cmd)
      modifies Repr()
      ensures Valid() && fresh(Repr() - old(Repr()))
      ensures Abs() == Next(Settings(), old(Abs()), q)
      ensures ReplyOk(Settings(), old(Abs()), q, r)
    {
      if IsQuery(q.cmd) {
        r := Query(q);
        return;
      }
      if !q.root {
        return Reply(EPERM, Nothing);
      }
      var code := Update(q);
      return Reply(code, Nothing);
    }

    // The first switch.
    method Query(q: Request) returns (r: Reply)
      requires Valid() && WellFormed(q.cmd) && IsQuery(q.cmd)
      ensures QueryOk(Settings(), Abs(), q, r)
    {
      hide SyscallRegistry.SyscallRegistry.Valid, UidRegistry.UidRegistry.Valid, ProgRegistry.ProgRegistry.Valid;
      match q.cmd
      case GetThreadStats(kind) =>
        if kind < 0 || kind > 1 {
          return Reply(EINVAL, Nothing);
        }
        var stats := monitor.GetThreadStats(kind, q.now);
        return Reply(OK, Stats(stats));
      case GetSyscallStats(nr) =>
        if nr < 0 || nr >= sys.registry.table.Length {
          return Reply(EINVAL, Nothing);
        }
        var stats := sys.GetSyscallStats(nr);
        return if stats == None then Reply(ENOENT, Nothing) else Reply(OK, SyscallStats(nr, stats.value));
      case CheckSyscall(nr) =>
        if nr < 0 || nr >= sys.registry.table.Length {
          return Reply(-1, Nothing);
        }
        var check := sys.registry.CheckSyscall(nr);
        return Reply(OK, Flag(check));
      case CheckUid(uid) =>
        var check := uids.CheckUid(uid);
        return Reply(OK, Flag(check));
      case CheckProg(raw) =>
        CheckName(raw);
        var check := progs.CheckProgname(FromCheck(raw));
        return Reply(OK, Flag(check));
      case GetNumber(choose) =>
        if choose < 0 || choose > 2 {
          return Reply(EINVAL, Nothing);
        }
        var n := GetLenght(choose);
        return if n < 0 then Reply(-1, Nothing) else Reply(OK, Number(n));
      case GetAllSyscalls(max, hasList) =>
        if max == 0 || !hasList {
          return Reply(EFAULT, Nothing);
        }
        var list := sys.registry.GetAllSyscalls(max);
        return if list == [] then Reply(0, Nothing) else Reply(OK, Numbers(list));
      case GetAllUids(max, hasList) =>
        if max == 0 || !hasList {
          return Reply(EFAULT, Nothing);
        }
        var list := uids.GetAllUids(max);
        return if list == [] then Reply(0, Nothing) else Reply(OK, Numbers(list));
      case GetAllProgs(max, hasList) =>
        if max == 0 || !hasList {
          return Reply(EFAULT, Nothing);
        }
        var list := progs.GetAllProgs(max);
        return if list == [] then Reply(0, Nothing) else Reply(OK, Names(list));
    }

    // get_lenght
    method GetLenght(choose: int) returns (n: int)
      requires Valid()
      ensures n == CountOf(Abs(), choose)
    {
      if choose == 0 {
        return uids.uidsLen;
      } else if choose == 1 {
        return sys.registry.sysLen;
      }
      return progs.progNameLen;
    }

    // The second switch.
    method Update(q: Request) returns (r: int)
      requires Valid() && !IsQuery(q.cmd) && q.root
      modifies Repr()
      ensures Valid() && fresh(Repr() - old(Repr()))
      ensures Abs() == Next(Settings(), old(Abs()), q)
      ensures r == UpdateCode(Settings(), old(Abs()), q.cmd)
    {
      hide M.MonitoredSyscalls.Valid, UidRegistry.UidRegistry.Valid, ProgRegistry.ProgRegistry.Valid;
      match q.cmd
      case RegisterSyscall(nr) =>
        if nr < 0 || nr >= sys.registry.table.Length {
          return EINVAL;
        }
        r := ChangeSystemCalls(nr, true, q.junk);
      case DeregisterSyscall(nr) =>
        if nr < 0 || nr >= sys.registry.table.Length {
          return EINVAL;
        }
        r := ChangeSystemCalls(nr, false, q.junk);
      case RegisterUid(uid) =>
        r := ChangeUids(uid, true);
      case DeregisterUid(uid) =>
        r := ChangeUids(uid, false);
      case RegisterProg(user) =>
        r := ChangeProgs(user, true);
      case DeregisterProg(user) =>
        r := ChangeProgs(user, false);
      case SetMaxCalls(max) =>
        r := monitor.SetMaxSyscall(max);
      case MonitorOn =>
        r := monitor.SwitchOnMonitor(q.now, hz);
      case MonitorOff =>
        r := monitor.SwitchOffMonitor(q.now);
      case _ =>
        return EINVAL;
    }

    method ChangeSystemCalls(nr: nat, add: bool, junk: seq<Byte>) returns (r: int)
      requires Valid() && nr < sys.registry.table.Length
      modifies sys.Repr
      ensures Valid() && fresh(Repr() - old(Repr()))
      ensures Abs() == old(Abs()).(peaks := if !add then old(sys.peaks) - {nr}
                                            else if nr in old(sys.peaks) then old(sys.peaks)
                                            else old(sys.peaks)[nr := M.Peak(0, 0, NameOf(junk))])
      ensures r == if add then (if nr in old(sys.peaks) then EEXIST else OK)
                   else if nr in old(sys.peaks) then OK else ENOENT
    {
      hide M.MonitoredSyscalls.Valid, UidRegistry.UidRegistry.Valid, ProgRegistry.ProgRegistry.Valid;
      if add {
        r := sys.RegisterSystemCall(nr, junk);
      } else {
        r := sys.DeregisterSystemCall(nr);
      }
      assert fresh(sys.Repr - old(sys.Repr));
    }

    // What a caller of system call nr that had to wait for `delay` records.
    method RecordDelay(delay: nat, nr: nat, uid: nat, comm: seq<Byte>)
      requires Valid()
      modifies sys.Repr
      ensures Valid() && Repr() == old(Repr())
      ensures Abs() == old(Abs()).(peaks := M.Recorded(old(sys.peaks), delay, nr, uid, comm))
    {
      hide M.MonitoredSyscalls.Valid, UidRegistry.UidRegistry.Valid, ProgRegistry.ProgRegistry.Valid;
      sys.CheckAndSetStatistic(delay, nr, uid, comm);
    }

    method ChangeUids(uid: nat, add: bool) returns (r: int)
      requires Valid()
      modifies uids.Repr
      ensures Valid() && fresh(Repr() - old(Repr()))
      ensures Abs() == old(Abs()).(uids := if add then old(Abs().uids) + {uid} else old(Abs().uids) - {uid})
      ensures r == if add then (if uid in old(uids.uids) then EEXIST else OK) else if uid in old(uids.uids) then OK else ENOENT
    {
      hide M.MonitoredSyscalls.Valid, UidRegistry.UidRegistry.Valid, ProgRegistry.ProgRegistry.Valid;
      if add {
        r := uids.RegisterUserId(uid);
      } else {
        r := uids.DeregisterUserId(uid);
      }
      assert fresh(uids.Repr - old(uids.Repr));
    }

    method ChangeProgs(user: seq<Byte>, add: bool) returns (r: int)
      requires Valid()
      modifies progs.Repr
      ensures Valid() && fresh(Repr() - old(Repr()))
      ensures Abs() == old(Abs()).(progs := if add then old(Abs().progs) + {NameOf(user)}
                                            else old(Abs().progs) - {NameOf(user)})
      ensures r == if add then (if NameOf(user) in old(progs.progs) then EEXIST else OK)
                   else if NameOf(user) in old(progs.progs) then OK else ENOENT
    {
      hide M.MonitoredSyscalls.Valid, UidRegistry.UidRegistry.Valid, ProgRegistry.ProgRegistry.Valid;
      var name := FromUser(user);
      FromUserText(user);
      assert Terminated(name) && Text(name) == NameOf(user);
      hide FromUser, Text, NameOf, Terminated;
      if add {
        r := progs.RegisterProgName(name);
      } else {
        r := progs.DeregisterProgName(name);
      }
      assert fresh(progs.Repr - old(progs.Repr));
    }
  }
}
