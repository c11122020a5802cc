// The registry of system calls together with the peak records its nodes point to
// (src/throttling_api.c:26-81, :84-137, :395-434, :643-667), each call run without
// interference.
module MonitoredSyscalls {
  import opened CStrings
  import opened Errno
  import opened SyscallRegistry
  import opened Wrappers
  import RcuHeap
  import Buckets

  // Times are in ticks.
  datatype Peak = Peak(delay: nat, uid: nat, name: seq<Byte>)

  // A longer delay takes the record of its number, if that is registered.
  function Recorded(m: map<nat, Peak>, delay: nat, nr: nat, uid: nat, comm: seq<Byte>): map<nat, Peak>
  {
    if nr in m && m[nr].delay < delay then m[nr := Peak(delay, uid, NameOf(comm))] else m
  }

  function View(stats: SyscallStats): Peak
    reads stats
  {
    Peak(stats.peakDelay, stats.peakUid, NameOf(stats.peakProgName))
  }

  // Each node has a record of its own, which holds what m says.
  ghost predicate StatOk(h: HackedSyscall, m: map<nat, Peak>, all: set<SyscallStats>)
    reads all
  {
    h.stats in all && h.stats.nr == h.nr && h.nr in m && View(h.stats) == m[h.nr]
  }

  ghost predicate StatsOk(items: seq<seq<HackedSyscall>>, m: map<nat, Peak>, all: set<SyscallStats>)
    reads all
  {
    forall b, i :: 0 <= b < |items| && 0 <= i < |items[b]| ==> StatOk(items[b][i], m, all)
  }

  // The records of other numbers than nr.
  ghost function Others(all: set<SyscallStats>, nr: nat): set<SyscallStats>
  {
    set s | s in all && s.nr != nr
  }

  // One record for each number.
  ghost predicate OneEach(all: set<SyscallStats>, m: map<nat, Peak>)
  {
    && (forall s :: s in all ==> s.nr in m)
    && (forall s, t :: s in all && t in all && s.nr == t.nr ==> s == t)
  }

  lemma StatsPushed(items: seq<seq<HackedSyscall>>, m: map<nat, Peak>, all: set<SyscallStats>, b: nat, h: HackedSyscall)
    requires StatsOk(items, m, all) && h.nr !in m && h.stats.nr == h.nr
    ensures StatsOk(Pushed(items, b, h), m[h.nr := View(h.stats)], all + {h.stats})
  {
    var items' := Pushed(items, b, h);
    forall c, i | 0 <= c < |items'| && 0 <= i < |items'[c]|
      ensures StatOk(items'[c][i], m[h.nr := View(h.stats)], all + {h.stats})
    {
      assert b < |items| && c == b && i > 0 ==> items'[c][i] == items[b][i - 1];
      assert StatOk(items'[c][i], m, all) || items'[c][i] == h;
    }
  }

  lemma StatsRemoved(items: seq<seq<HackedSyscall>>, items': seq<seq<HackedSyscall>>, m: map<nat, Peak>,
                     all: set<SyscallStats>, nr: nat)
    requires StatsOk(items, m, all) && IsRemoval(items, items', nr)
    ensures StatsOk(items', m - {nr}, Others(all, nr))
  {
    forall c, i | 0 <= c < |items'| && 0 <= i < |items'[c]|
      ensures StatOk(items'[c][i], m - {nr}, Others(all, nr))
    {
      assert items'[c][i] in items[c];
      assert StatOk(items'[c][i], m, all);
    }
  }

  class MonitoredSyscalls {
    const registry: SyscallRegistry
    ghost var peaks: map<nat, Peak>  // the record of each registered number
    ghost var records: set<SyscallStats>
    ghost var Repr: set<object>

    ghost predicate Valid()
      reads this, Repr
    {
      && registry in Repr && registry.Repr <= Repr && this !in registry.Repr
      && Repr == {this} + registry.Repr + records && records !! {this} + registry.Repr
      && registry.sysHash in registry.Repr && registry.Valid()
      && peaks.Keys == registry.nrs && OneEach(records, peaks) && StatsOk(registry.sysHash.items, peaks, records)
    }

    constructor (entries: seq<Entry>, slot: nat -> nat)
      requires forall n :: 0 <= n < |entries| ==> entries[n] != RcuHeap.Wrapper
      requires Buckets.IntoSlots(slot, RcuHeap.SLOTS)
      ensures Valid() && this in Repr && fresh(Repr)
      ensures peaks == map[] && registry.table[..] == entries
    {
      hide SyscallRegistry.Valid;
      registry := new SyscallRegistry(entries, slot);
      peaks, records := map[], {};
      new;
      Repr := {this} + registry.Repr;
    }

    method RegisterSystemCall(nr: nat, junk: seq<Byte>) returns (r: int)
      requires Valid() && nr < registry.table.Length
      modifies Repr
      ensures Valid() && this in Repr && fresh(Repr - old(Repr))
      ensures r == if nr in old(peaks) then EEXIST else OK
      ensures peaks == if nr in old(peaks) then old(peaks) else old(peaks)[nr := Peak(0, 0, NameOf(junk))]
    {
      hide SyscallRegistry.Valid;
      var stats := new SyscallStats(nr, junk);
      ghost var items := registry.sysHash.items;
      r := registry.RegisterSystemCall(nr, stats);
      if r == OK {
        StatsPushed(items, peaks, records, registry.slot(nr), HackedSyscall(nr, registry.pristine[nr], stats));
        peaks, records := peaks[nr := View(stats)], records + {stats};
      }
      Repr := {this} + registry.Repr + records;
    }

    method DeregisterSystemCall(nr: nat) returns (r: int)
      requires Valid() && nr < registry.table.Length
      modifies Repr
      ensures Valid() && this in Repr && fresh(Repr - old(Repr))
      ensures r == if nr in old(peaks) then OK else ENOENT
      ensures peaks == old(peaks) - {nr}
    {
      hide SyscallRegistry.Valid;
      ghost var items := registry.sysHash.items;
      r := registry.DeregisterSystemCall(nr);
      if r == OK {
        StatsRemoved(items, registry.sysHash.items, peaks, records, nr);
        records := Others(records, nr);
      }
      peaks := peaks - {nr};
      Repr := {this} + registry.Repr + records;
    }

    // The search for the node, and what it points to.
    method FindStats(nr: nat) returns (stats: SyscallStats?)
      requires Valid()
      ensures stats != null <==> nr in peaks
      ensures stats != null ==> stats in records && stats in Repr && stats.nr == nr && View(stats) == peaks[nr]
    {
      var curr, i := registry.Search(nr);
      if curr == null {
        return null;
      }
      assert StatOk(registry.sysHash.items[registry.slot(nr)][i], peaks, records);
      return curr.item.stats;
    }

    // get_syscall_stats
    method GetSyscallStats(nr: nat) returns (r: Option<Peak>)
      requires Valid()
      ensures r == if nr in peaks then Some(peaks[nr]) else None
      ensures r.Some? ==> IsName(r.value.name)
    {
      var stats := FindStats(nr);
      if stats == null {
        return None;
      }
      NameFacts(stats.peakProgName);
      return Some(View(stats));
    }

    // check_and_set_statistic
    method CheckAndSetStatistic(delay: nat, nr: nat, uid: nat, comm: seq<Byte>)
      requires Valid()
      modifies Repr
      ensures Valid() && this in Repr && Repr == old(Repr)
      ensures peaks == Recorded(old(peaks), delay, nr, uid, comm)
    {
      assert this in Repr;
      hide Valid, NameOf;
      var stats := FindStats(nr);
      if stats != null {
        if stats.peakDelay < delay {
          Overwrite(stats, delay, uid, comm);
        }
      }
    }

    // The three writes under stats_lock; each record belongs to one number.
    method Overwrite(stats: SyscallStats, delay: nat, uid: nat, comm: seq<Byte>)
      requires Valid() && stats in records && stats.nr in peaks
      modifies `peaks, stats
      ensures Valid() && peaks == old(peaks)[stats.nr := Peak(delay, uid, NameOf(comm))]
    {
      hide SyscallRegistry.Valid;
      ghost var was := peaks;
      stats.peakDelay := delay;
      stats.peakUid := uid;
      stats.peakProgName := NameOf(comm) + [0];
      NameFacts(comm);
      peaks := was[stats.nr := View(stats)];
      forall b, i | 0 <= b < |registry.sysHash.items| && 0 <= i < |registry.sysHash.items[b]|
        ensures StatOk(registry.sysHash.items[b][i], peaks, records)
      {
        assert old(StatOk(registry.sysHash.items[b][i], was, records));
      }
    }
  }
}
