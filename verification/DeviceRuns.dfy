// What the command layer promises over whole sequences of commands.
module DeviceRuns {
  import opened Buckets
  import opened CStrings
  import opened Errno
  import opened Wrappers
  import opened Device
  import M = MonitoredSyscalls
  import RcuHeap

  type Key = RcuHeap.Key

  ghost predicate Has(a: State, k: Key)
  {
    match k
    case Sys(nr) => nr in a.peaks
    case Uid(u) => u in a.uids
    case Prog(t) => t in a.progs
  }

  function Run(c: Config, a: State, qs: seq<Request>): State
  {
    if qs == [] then a else Next(c, Run(c, a, qs[..|qs| - 1]), qs[|qs| - 1])
  }

  function Adds(cmd: Command): Option<Key>
  {
    match cmd
    case RegisterSyscall(nr) => if nr >= 0 then Some(RcuHeap.Sys(nr)) else None
    case RegisterUid(u) => Some(RcuHeap.Uid(u))
    case RegisterProg(user) => Some(RcuHeap.Prog(NameOf(user)))
    case _ => None
  }

  function Removes(cmd: Command): Option<Key>
  {
    match cmd
    case DeregisterSyscall(nr) => if nr >= 0 then Some(RcuHeap.Sys(nr)) else None
    case DeregisterUid(u) => Some(RcuHeap.Uid(u))
    case DeregisterProg(user) => Some(RcuHeap.Prog(NameOf(user)))
    case _ => None
  }

  predicate IsKey(c: Config, k: Key)
  {
    k.Sys? ==> k.nr < c.nrSyscalls
  }

  // Whether the last command of root that names k registers it.
  function LastWord(qs: seq<Request>, k: Key): Option<bool>
  {
    if qs == [] then None
    else
      var q := qs[|qs| - 1];
      if q.root && Adds(q.cmd) == Some(k) then Some(true)
      else if q.root && Removes(q.cmd) == Some(k) then Some(false)
      else LastWord(qs[..|qs| - 1], k)
  }

  // After any run, a key is registered iff root registered it last, whatever else happened.
  lemma {:induction false} LastWordDecides(c: Config, a: State, qs: seq<Request>, k: Key)
    requires IsKey(c, k)
    ensures Has(Run(c, a, qs), k) <==> if LastWord(qs, k).Some? then LastWord(qs, k).value else Has(a, k)
  {
    if qs != [] {
      LastWordDecides(c, a, qs[..|qs| - 1], k);
    }
  }

  // ---------------------------------------------------------------- who can change what

  // A user who is not root changes nothing, so the root updates alone decide the state.
  function RootUpdates(qs: seq<Request>): seq<Request>
  {
    if qs == [] then []
    else
      var q := qs[|qs| - 1];
      RootUpdates(qs[..|qs| - 1]) + if q.root && !IsQuery(q.cmd) then [q] else []
  }

  lemma {:induction false} OnlyRootUpdatesMatter(c: Config, a: State, qs: seq<Request>)
    ensures Run(c, a, RootUpdates(qs)) == Run(c, a, qs)
  {
    if qs != [] {
      var front, q := qs[..|qs| - 1], qs[|qs| - 1];
      OnlyRootUpdatesMatter(c, a, front);
      if q.root && !IsQuery(q.cmd) {
        assert RootUpdates(qs)[..|RootUpdates(qs)| - 1] == RootUpdates(front);
      } else {
        assert RootUpdates(qs) == RootUpdates(front);
      }
    }
  }

  predicate StateOk(c: Config, a: State)
  {
    && (forall nr :: nr in a.peaks ==> nr < c.nrSyscalls && IsName(a.peaks[nr].name))
    && (forall t :: t in a.progs ==> IsName(t))
    && a.core.max >= 1
  }

  // Numbers stay in range, names stay short C strings, the limit stays positive.
  lemma {:induction false} StateStaysOk(c: Config, a: State, qs: seq<Request>)
    requires StateOk(c, a)
    ensures StateOk(c, Run(c, a, qs))
  {
    if qs != [] {
      StateStaysOk(c, a, qs[..|qs| - 1]);
      var q := qs[|qs| - 1];
      NameFacts(q.junk);
      if q.cmd.RegisterProg? {
        NameFacts(q.cmd.user);
      }
    }
  }

  // ---------------------------------------------------------------- updates

  predicate IsRegistryUpdate(cmd: Command)
  {
    Adds(cmd).Some? || Removes(cmd).Some?
  }

  // The answer of a registration or deregistration says whether it changed anything.
  lemma CodeTellsChange(c: Config, a: State, q: Request, r: Reply)
    requires IsRegistryUpdate(q.cmd) && ReplyOk(c, a, q, r)
    ensures r.code == OK <==> Next(c, a, q) != a
  {
  }

  // Deregistering what was just registered undoes it exactly when it was new.
  lemma RegisterThenDeregister(c: Config, a: State, p: Request, q: Request)
    requires p.root && q.root && Adds(p.cmd).Some? && Removes(q.cmd) == Adds(p.cmd) && IsKey(c, Adds(p.cmd).value)
    ensures Next(c, Next(c, a, p), q) == a <==> !Has(a, Adds(p.cmd).value)
  {
  }

  // A name of at most 15 bytes is found by a check of its padded buffer exactly when the
  // same bytes are registered; longer strings are known by their first 15 bytes.
  lemma NamesByFifteenBytes(user: seq<Byte>, raw: seq<Byte>)
    requires IsBuffer(raw)
    ensures IsName(NameOf(user)) && IsName(NameOf(raw))
    ensures NameOf(user) == NameOf(raw) <==> Strncmp(FromUser(user), FromCheck(raw), COMM_LEN) == 0
    ensures IsName(user) ==> NameOf(user) == user
  {
    FromUserText(user);
    TextIsName(FromUser(user));
    CheckName(raw);
    TextIsName(FromCheck(raw));
    StrncmpIsTextEquality(FromUser(user), FromCheck(raw), COMM_LEN);
    if IsName(user) {
      FullStrnlen(user, COMM_LEN - 1);
    }
  }

  // ---------------------------------------------------------------- counting and listing

  // What the documented codes promise: 0 system calls, 1 user ids, 2 program names.
  ghost function Documented(a: State, choose: nat): nat
  {
    if choose == 0 then |a.Nrs()| else if choose == 1 then |a.uids| else |a.progs|
  }

  lemma NumberAgrees(c: Config, a: State, q: Request, r: Reply)
    requires q.cmd.GetNumber? && 0 <= q.cmd.choose <= 2 && ReplyOk(c, a, q, r)
    ensures r.code == OK && r.out.Number?
    ensures r.out.n == Documented(a, q.cmd.choose) <==> q.cmd.choose == 2 || |a.uids| == |a.Nrs()|
  {
  }

  // What the user interface lists: nothing if the number it was told is 0, else what it
  // then fetches.
  function Listed(n: Reply, r: Reply): seq<nat>
  {
    if n.out.Number? && n.out.n > 0 && r.out.Numbers? then r.out.numbers else []
  }

  function ListedNames(n: Reply, r: Reply): seq<seq<Byte>>
  {
    if n.out.Number? && n.out.n > 0 && r.out.Names? then r.out.names else []
  }

  // It asks for the number of system calls by its documented code, then fetches that many.
  // The list is complete exactly when there are at least as many user ids as system calls.
  lemma CountThenFetch(c: Config, a: State, p: Request, n: Reply, q: Request, r: Reply)
    requires p.cmd == GetNumber(0) && ReplyOk(c, a, p, n)
    requires q.cmd.GetAllSyscalls? && q.cmd.hasList && q.cmd.max == n.out.n && ReplyOk(c, a, q, r)
    ensures (forall k :: k in a.Nrs() ==> k in Listed(n, r)) <==> |a.Nrs()| <= |a.uids|
  {
    if a.peaks != map[] && |a.uids| > 0 {
      FetchIsWhole(r.out.numbers, a.Nrs(), |a.uids|);
    } else if a.peaks != map[] {
      var k :| k in a.Nrs();
    }
  }

  // And for user ids the other way round.
  lemma CountThenFetchUids(c: Config, a: State, p: Request, n: Reply, q: Request, r: Reply)
    requires p.cmd == GetNumber(1) && ReplyOk(c, a, p, n)
    requires q.cmd.GetAllUids? && q.cmd.hasList && q.cmd.max == n.out.n && ReplyOk(c, a, q, r)
    ensures (forall u :: u in a.uids ==> u in Listed(n, r)) <==> |a.uids| <= |a.Nrs()|
  {
    if a.uids != {} && |a.Nrs()| > 0 {
      FetchIsWhole(r.out.numbers, a.uids, |a.Nrs()|);
    } else if a.uids != {} {
      var u :| u in a.uids;
    }
  }

  // Program names have the right code, so the same two calls list exactly them.
  lemma CountThenFetchProgs(c: Config, a: State, p: Request, n: Reply, q: Request, r: Reply)
    requires p.cmd == GetNumber(2) && ReplyOk(c, a, p, n)
    requires q.cmd.GetAllProgs? && q.cmd.hasList && q.cmd.max == n.out.n && ReplyOk(c, a, q, r)
    ensures forall t :: t in ListedNames(n, r) <==> t in a.progs
  {
    if a.progs != {} {
      FetchIsWhole(r.out.names, a.progs, |a.progs|);
    }
  }

  // ---------------------------------------------------------------- peak delays

  datatype Delay = Delay(delay: nat, uid: nat, comm: seq<Byte>)

  // The records after callers of system call nr reported their delays, oldest first.
  function AfterDelays(m: map<nat, M.Peak>, nr: nat, ds: seq<Delay>): map<nat, M.Peak>
  {
    if ds == [] then m
    else
      var d := ds[|ds| - 1];
      M.Recorded(AfterDelays(m, nr, ds[..|ds| - 1]), d.delay, nr, d.uid, d.comm)
  }

  // The i-th delay is on record, and is longer than all before it.
  predicate IsFirst(p: M.Peak, ds: seq<Delay>, i: nat)
  {
    && i < |ds| && p == M.Peak(ds[i].delay, ds[i].uid, NameOf(ds[i].comm))
    && forall j :: 0 <= j < i ==> ds[j].delay < ds[i].delay
  }

  // One after the other, the longest delay since the registration is kept, with the user
  // and the name of the first caller that had it; no other record changes.
  lemma {:induction false} LongestDelayIsKept(m: map<nat, M.Peak>, nr: nat, ds: seq<Delay>)
    requires nr in m && m[nr].delay == 0
    ensures var m' := AfterDelays(m, nr, ds);
            && nr in m' && m' == m[nr := m'[nr]]
            && (forall i :: 0 <= i < |ds| ==> ds[i].delay <= m'[nr].delay)
            && (m'[nr] == m[nr] || exists i :: IsFirst(m'[nr], ds, i))
  {
    if ds != [] {
      var front, d := ds[..|ds| - 1], ds[|ds| - 1];
      LongestDelayIsKept(m, nr, front);
      var p := AfterDelays(m, nr, front)[nr];
      hide NameOf;
      if p.delay < d.delay {
        assert IsFirst(M.Peak(d.delay, d.uid, NameOf(d.comm)), ds, |ds| - 1);
      } else if p != m[nr] {
        var i :| IsFirst(p, front, i);
        assert IsFirst(p, ds, i);
      }
    }
  }
}
