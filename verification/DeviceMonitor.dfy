// What runs of commands make of the monitor, and what they are answered, in the numbers that
// the user sees (src/throttling_dev.c:38-441).
module DeviceMonitor {
  import opened CStrings
  import opened Wrappers
  import opened Device
  import opened DeviceRuns
  import opened Monitor
  import RcuHeap

  // ---------------------------------------------------------------- flag and limit

  // What root's last switch says, and root's last positive limit.
  function SwitchWord(qs: seq<Request>): Option<bool>
  {
    if qs == [] then None
    else
      var q := qs[|qs| - 1];
      if q.root && q.cmd.MonitorOn? then Some(true)
      else if q.root && q.cmd.MonitorOff? then Some(false)
      else SwitchWord(qs[..|qs| - 1])
  }

  function LimitWord(qs: seq<Request>): Option<int>
  {
    if qs == [] then None
    else
      var q := qs[|qs| - 1];
      if q.root && q.cmd.SetMaxCalls? && q.cmd.newMax > 0 then Some(q.cmd.newMax) else LimitWord(qs[..|qs| - 1])
  }

  // After any run the monitor is what root's last switch said, and MAX what root's last
  // positive limit was; what the handler and the callers keep is as it was.
  lemma {:induction false} MonitorFollowsRoot(c: Config, a: State, qs: seq<Request>)
    ensures var core, core' := a.core, Run(c, a, qs).core;
            && core'.on == (if SwitchWord(qs).Some? then SwitchWord(qs).value else core.on)
            && core'.max == (if LimitWord(qs).Some? then LimitWord(qs).value else core.max)
            && core'.tokens == core.tokens && core'.blocked == core.blocked
            && core'.sum == core.sum && core'.peak == core.peak && core'.avg == core.avg
  {
    if qs != [] {
      MonitorFollowsRoot(c, a, qs[..|qs| - 1]);
    }
  }

  // The timer is armed exactly while the monitor is on, and nobody sleeps while it is off.
  predicate CoreOk(core: Core)
  {
    (core.on <==> core.timer.Some?) && (!core.on ==> core.sleepers == {})
  }

  lemma {:induction false} CoreStaysOk(c: Config, a: State, qs: seq<Request>)
    requires CoreOk(a.core)
    ensures CoreOk(Run(c, a, qs).core)
  {
    if qs != [] {
      CoreStaysOk(c, a, qs[..|qs| - 1]);
    }
  }

  // ---------------------------------------------------------------- when it was switched

  predicate Says(qs: seq<Request>, on: bool)
  {
    exists i :: 0 <= i < |qs| && qs[i].root && if on then qs[i].cmd.MonitorOn? else qs[i].cmd.MonitorOff?
  }

  // A monitor that root switched on at some time counts from then, with its first epoch one
  // period later, however often it is switched on again, until root switches it off.
  lemma {:induction false} OnSince(c: Config, a: State, q: Request, rest: seq<Request>)
    requires !a.core.on && q.root && q.cmd.MonitorOn? && !Says(rest, false)
    ensures var core := Run(c, Next(c, a, q), rest).core;
            && core.on && core.startTime == q.now && core.timer == Some(q.now + c.hz)
            && core.elapsed == a.core.elapsed && core.sleepers == a.core.sleepers
  {
    if rest != [] {
      var front := rest[..|rest| - 1];
      assert forall i :: 0 <= i < |front| ==> front[i] == rest[i];
      OnSince(c, a, q, front);
      assert !(rest[|rest| - 1].root && rest[|rest| - 1].cmd.MonitorOff?);
    }
  }

  // One that root switched off has no timer and no sleepers, and reports the time since it
  // was switched on, however often it is switched off again, until root switches it on.
  lemma {:induction false} OffSince(c: Config, a: State, q: Request, rest: seq<Request>)
    requires a.core.on && q.root && q.cmd.MonitorOff? && !Says(rest, true)
    ensures var core := Run(c, Next(c, a, q), rest).core;
            && !core.on && core.timer == None && core.sleepers == {}
            && core.elapsed == q.now - a.core.startTime && core.startTime == a.core.startTime
  {
    if rest != [] {
      var front := rest[..|rest| - 1];
      assert forall i :: 0 <= i < |front| ==> front[i] == rest[i];
      OffSince(c, a, q, front);
      assert !(rest[|rest| - 1].root && rest[|rest| - 1].cmd.MonitorOn?);
    }
  }

  // ---------------------------------------------------------------- answers

  // The codes of the commands that change something: success, or why not.
  lemma CodesOfUpdates(c: Config, a: State, q: Request, r: Reply)
    requires !IsQuery(q.cmd) && ReplyOk(c, a, q, r)
    ensures r.out == Nothing
    ensures !q.root ==> r.code == -1
    ensures q.root ==>
              var k := if Adds(q.cmd).Some? then Adds(q.cmd) else Removes(q.cmd);
              && (k.Some? && IsKey(c, k.value) && Adds(q.cmd).Some? ==> r.code == if Has(a, k.value) then -17 else 0)
              && (k.Some? && IsKey(c, k.value) && Adds(q.cmd).None? ==> r.code == if Has(a, k.value) then 0 else -2)
              && (k.Some? && !IsKey(c, k.value) ==> r.code == -22)
              && (q.cmd.RegisterSyscall? || q.cmd.DeregisterSyscall? ==> (r.code == -22 <==> !(0 <= q.cmd.nr < c.nrSyscalls)))
              && (q.cmd.SetMaxCalls? ==> r.code == if q.cmd.newMax >= 1 then 0 else -22)
              && (q.cmd.MonitorOn? ==> r.code == if a.core.on then -114 else 0)
              && (q.cmd.MonitorOff? ==> r.code == if a.core.on then 0 else -114)
              && (q.cmd.Unknown? ==> r.code == -22)
  {
  }

  // The key a check command asks about.
  function Asks(cmd: Command): Option<Key>
  {
    match cmd
    case CheckSyscall(nr) => if nr >= 0 then Some(RcuHeap.Sys(nr)) else None
    case CheckUid(u) => Some(RcuHeap.Uid(u))
    case CheckProg(raw) => Some(RcuHeap.Prog(NameOf(raw)))
    case _ => None
  }

  // A check answers 1 or 0 as root's last word on the key was, for any user.
  lemma ChecksTellLastWord(c: Config, a: State, qs: seq<Request>, q: Request, r: Reply)
    requires Asks(q.cmd).Some? && IsKey(c, Asks(q.cmd).value) && ReplyOk(c, Run(c, a, qs), q, r)
    ensures var k := Asks(q.cmd).value;
            r.code == 0 && r.out == Flag(if (if LastWord(qs, k).Some? then LastWord(qs, k).value else Has(a, k)) then 1 else 0)
  {
    LastWordDecides(c, a, qs, Asks(q.cmd).value);
  }

  // The statistics: peak record of a registered number; blocked sum, time on and peak as kind
  // 0; the stored average as kind 1.
  lemma StatisticsTold(c: Config, a: State, q: Request, r: Reply)
    requires ReplyOk(c, a, q, r)
    ensures q.cmd.GetSyscallStats? ==>
              if 0 <= q.cmd.nr < c.nrSyscalls && q.cmd.nr in a.peaks
              then r.code == 0 && r.out.SyscallStats? && r.out.nr == q.cmd.nr && r.out.peak == a.peaks[q.cmd.nr]
              else r.out == Nothing && r.code == if 0 <= q.cmd.nr < c.nrSyscalls then -2 else -22
    ensures q.cmd.GetThreadStats? ==>
              if q.cmd.kind != 0 && q.cmd.kind != 1 then r.code == -22 && r.out == Nothing
              else
                && r.code == 0 && r.out.Stats? && r.out.stats.kind == q.cmd.kind
                && r.out.stats.mean == (if q.cmd.kind == 1 then a.core.avg else 0)
                && r.out.stats.sum == (if q.cmd.kind == 0 then a.core.sum else 0)
                && r.out.stats.peak == (if q.cmd.kind == 0 then a.core.peak else 0)
                && r.out.stats.elapsed == (if q.cmd.kind == 1 then 0
                                           else if a.core.on then a.core.elapsed + (q.now - a.core.startTime)
                                           else a.core.elapsed)
  {
  }

  // A listing with room for something lists registered things only, none twice and as many as
  // there is room for; system calls in ascending order, and no smaller one left out.
  lemma ListingsTold(c: Config, a: State, q: Request, r: Reply)
    requires ReplyOk(c, a, q, r) && (q.cmd.GetAllSyscalls? || q.cmd.GetAllUids? || q.cmd.GetAllProgs?)
    ensures r.code == if q.cmd.max >= 1 && q.cmd.hasList then 0 else -14
    ensures r.code != 0 ==> r.out == Nothing
    ensures r.code == 0 && q.cmd.GetAllSyscalls? ==>
              var list := if r.out.Numbers? then r.out.numbers else [];
              && |list| == (if q.cmd.max < |a.peaks| then q.cmd.max else |a.peaks|)
              && (forall i :: 0 <= i < |list| ==> list[i] in a.peaks)
              && (forall i, j :: 0 <= i < j < |list| ==> list[i] < list[j])
              && (forall nr, l :: nr in a.peaks && nr !in list && l in list ==> l < nr)
    ensures r.code == 0 && q.cmd.GetAllUids? ==>
              var list := if r.out.Numbers? then r.out.numbers else [];
              && |list| == (if q.cmd.max < |a.uids| then q.cmd.max else |a.uids|)
              && (forall i :: 0 <= i < |list| ==> list[i] in a.uids)
              && (forall i, j :: 0 <= i < j < |list| ==> list[i] != list[j])
    ensures r.code == 0 && q.cmd.GetAllProgs? ==>
              var list := if r.out.Names? then r.out.names else [];
              && |list| == (if q.cmd.max < |a.progs| then q.cmd.max else |a.progs|)
              && (forall i :: 0 <= i < |list| ==> list[i] in a.progs)
              && (forall i, j :: 0 <= i < j < |list| ==> list[i] != list[j])
  {
    assert a.Nrs() == a.peaks.Keys && |a.Nrs()| == |a.peaks|;
  }

  // The three lengths by code, as the code swaps the first two.
  lemma NumbersTold(c: Config, a: State, q: Request, r: Reply)
    requires ReplyOk(c, a, q, r) && q.cmd.GetNumber?
    ensures q.cmd.choose == 0 ==> r == Reply(0, Number(|a.uids|))
    ensures q.cmd.choose == 1 ==> r == Reply(0, Number(|a.peaks|))
    ensures q.cmd.choose == 2 ==> r == Reply(0, Number(|a.progs|))
    ensures !(0 <= q.cmd.choose <= 2) ==> r == Reply(-22, Nothing)
  {
    assert a.Nrs() == a.peaks.Keys && |a.Nrs()| == |a.peaks|;
  }

  // ---------------------------------------------------------------- records

  predicate Drops(qs: seq<Request>, nr: nat)
  {
    exists i :: 0 <= i < |qs| && qs[i].root && qs[i].cmd == DeregisterSyscall(nr)
  }

  // A number that root registers anew starts with an empty record, and keeps it, whatever is
  // commanded, until root deregisters it.
  lemma {:induction false} RecordLasts(c: Config, a: State, q: Request, rest: seq<Request>)
    requires q.root && q.cmd.RegisterSyscall? && 0 <= q.cmd.nr < c.nrSyscalls && !Drops(rest, q.cmd.nr)
    ensures var peaks := Run(c, Next(c, a, q), rest).peaks;
            && q.cmd.nr in peaks
            && (q.cmd.nr in a.peaks ==> peaks[q.cmd.nr] == a.peaks[q.cmd.nr])
            && (q.cmd.nr !in a.peaks ==> peaks[q.cmd.nr].delay == 0 && peaks[q.cmd.nr].uid == 0)
  {
    if rest != [] {
      var front := rest[..|rest| - 1];
      assert forall i :: 0 <= i < |front| ==> front[i] == rest[i];
      RecordLasts(c, a, q, front);
      assert !(rest[|rest| - 1].root && rest[|rest| - 1].cmd == DeregisterSyscall(q.cmd.nr));
    }
  }
}
