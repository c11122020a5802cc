// The registry of system calls: the flag array, the nodes that save the original entries,
// the counter and the patched syscall table (src/throttling_api.c:26-137, :395-450,
// :507-536), each call run without interference.
module SyscallRegistry {
  import opened Buckets
  import opened CStrings
  import opened Errno
  import opened HashTable
  import RcuHeap

  type Entry = RcuHeap.Entry

  // The statistics of a system call; the registry only carries the pointer.
  class SyscallStats {
    const nr: nat
    var peakDelay: nat
    var peakUid: nat
    var peakProgName: seq<Byte>

    // kmalloc leaves the name as it finds it.
    constructor (nr: nat, junk: seq<Byte>)
      ensures this.nr == nr && peakDelay == peakUid == 0 && peakProgName == junk
    {
      this.nr, peakDelay, peakUid, peakProgName := nr, 0, 0, junk;
    }
  }

  datatype HackedSyscall = HackedSyscall(nr: nat, original: Entry, stats: SyscallStats)

  function SysKey(h: HackedSyscall): nat { h.nr }

  function Pushed(items: seq<seq<HackedSyscall>>, b: nat, h: HackedSyscall): seq<seq<HackedSyscall>>
  {
    if b < |items| then items[b := [h] + items[b]] else items
  }

  // What is left are nodes that were there, but for the one of nr.
  ghost predicate IsRemoval(items: seq<seq<HackedSyscall>>, items': seq<seq<HackedSyscall>>, nr: nat)
  {
    forall b, i :: 0 <= b < |items'| && 0 <= i < |items'[b]| ==>
      items'[b][i].nr != nr && b < |items| && items'[b][i] in items[b]
  }

  lemma OnlyRemoved(items: seq<seq<HackedSyscall>>, slot: nat -> nat, b: nat, n: nat)
    requires Bucketed(items, SysKey, slot) && b < |items| && n < |items[b]|
    ensures IsRemoval(items, items[b := Without(items[b], n)], items[b][n].nr)
  {
    var items': seq<seq<HackedSyscall>>, nr := items[b := Without(items[b], n)], items[b][n].nr;
    RemovedKey(items, SysKey, slot, b, n);
    forall c, i | 0 <= c < |items'| && 0 <= i < |items'[c]|
      ensures items'[c][i].nr != nr && items'[c][i] in items[c]
    {
      assert c == b ==> items'[c][i] == items[b][if i < n then i else i + 1];
      assert SysKey(items'[c][i]) in KeySet(items', SysKey);
    }
  }

  predicate Ascending(s: seq<nat>)
  {
    forall i, j :: 0 <= i < j < |s| ==> s[i] < s[j]
  }

  // The smallest members of s, in order, up to max of them.
  ghost predicate IsSmallest(r: seq<nat>, s: set<nat>, max: nat)
  {
    && Ascending(r) && |r| == (if max < |s| then max else |s|)
    && (forall k :: k in r ==> k in s)
    && (forall k, l :: k in s && k !in r && l in r ==> l < k)
  }

  class SyscallRegistry {
    const table: array<Entry>
    const pristine: seq<Entry>  // the table before the module touched it
    const flags: array<bool>
    const sysHash: HashTable<HackedSyscall>
    var sysLen: int
    const slot: nat -> nat

    ghost var nrs: set<nat>  // the registered numbers
    ghost var Repr: set<object>

    ghost predicate Valid()
      reads this, Repr
    {
      && table in Repr && flags in Repr && sysHash in Repr
      && table !in sysHash.Repr && flags !in sysHash.Repr
      && Repr == {this, table, flags} + sysHash.Repr
      && HashOk() && TableOk(nrs)
    }

    ghost predicate HashOk()
      reads this, sysHash, sysHash.Repr
    {
      && this !in sysHash.Repr && sysHash.Valid()
      && IntoSlots(slot, SLOTS) && Bucketed(sysHash.items, SysKey, slot)
      && EveryItem(sysHash.items, NodeOk)
      && nrs == KeySet(sysHash.items, SysKey) && sysLen == |nrs|
    }

    // A node holds the pristine entry of its number, never the wrapper.
    predicate NodeOk(h: HackedSyscall)
    {
      h.nr < |pristine| && h.original == pristine[h.nr]
    }

    // The flag is set iff the table holds the wrapper iff the number is registered.
    ghost predicate TableOk(nrs: set<nat>)
      reads table, flags
    {
      && table.Length == flags.Length == |pristine|
      && (forall n :: 0 <= n < |pristine| ==>
            && pristine[n] != RcuHeap.Wrapper
            && (flags[n] <==> n in nrs)
            && table[n] == if n in nrs then RcuHeap.Wrapper else pristine[n])
    }

    constructor (entries: seq<Entry>, slot: nat -> nat)
      requires forall n :: 0 <= n < |entries| ==> entries[n] != RcuHeap.Wrapper
      requires IntoSlots(slot, SLOTS)
      ensures Valid() && this in Repr && sysHash in Repr && fresh(Repr)
      ensures forall b :: 0 <= b < |sysHash.items| ==> sysHash.items[b] == []
      ensures nrs == {} && table[..] == entries == pristine
    {
      table := new Entry[|entries|](i requires 0 <= i < |entries| => entries[i]);
      pristine := entries;
      flags := new bool[|entries|](_ => false);
      sysHash := new HashTable<HackedSyscall>();
      sysLen := 0;
      this.slot := slot;
      nrs := {};
      new;
      NoKeys(sysHash.items, SysKey, slot);
      Repr := {this, table, flags} + sysHash.Repr;
    }

    // The table tells what is registered; it is the original one iff nothing is.
    lemma TableTells()
      requires Valid()
      ensures forall n :: n in nrs <==> 0 <= n < table.Length && table[n] == RcuHeap.Wrapper
      ensures table[..] == pristine <==> nrs == {}
    {
      forall n | n in nrs
        ensures n < |pristine| && table[n] != pristine[n]
      {
        var b, i :| 0 <= b < |sysHash.items| && 0 <= i < |sysHash.items[b]| && SysKey(sysHash.items[b][i]) == n;
        assert NodeOk(sysHash.items[b][i]);
      }
      if nrs != {} {
        var n :| n in nrs;
        assert table[..][n] != pristine[n];
      }
    }

    method RegisterSystemCall(nr: nat, stats: SyscallStats) returns (r: int)
      requires Valid() && nr < table.Length
      modifies Repr
      ensures Valid() && this in Repr && sysHash in Repr && fresh(Repr - old(Repr))
      ensures r == if nr in old(nrs) then EEXIST else OK
      ensures nrs == old(nrs) + {nr}
      ensures nr < |pristine|
      ensures r == OK ==> sysHash.items == Pushed(old(sysHash.items), slot(nr), HackedSyscall(nr, pristine[nr], stats))
      ensures r != OK ==> sysHash.items == old(sysHash.items)
    {
      hide HashTable.ChainOk, EveryItem, Bucketed, KeySet;
      if flags[nr] {
        return EEXIST;
      }
      var hack := HackedSyscall(nr, table[nr], stats);
      table[nr] := RcuHeap.Wrapper;
      flags[nr] := true;
      assert TableOk(nrs + {nr});
      Insert(hack);
      Repr := {this, table, flags} + sysHash.Repr;
      assert fresh(Repr - old(Repr));
      return OK;
    }

    method Insert(hack: HackedSyscall)
      requires HashOk() && NodeOk(hack) && hack.nr !in nrs
      modifies `nrs, `sysLen, sysHash.Repr
      ensures HashOk() && fresh(sysHash.Repr - old(sysHash.Repr))
      ensures nrs == old(nrs) + {hack.nr}
      ensures sysHash.items == Pushed(old(sysHash.items), slot(hack.nr), hack)
    {
      ghost var items := sysHash.items;
      sysHash.Add(slot(hack.nr), hack);
      AddedKey(items, SysKey, slot, hack);
      EveryAdded(items, NodeOk, slot(hack.nr), hack);
      sysLen := sysLen + 1;
      nrs := nrs + {hack.nr};
    }

    method Search(nr: nat) returns (n: Node?<HackedSyscall>, ghost i: nat)
      requires HashOk()
      ensures n != null <==> nr in nrs
      ensures n != null ==> sysHash.NodeAt(slot(nr), i, n) && n.item.nr == nr && NodeOk(n.item)
    {
      KeyInBucket(sysHash.items, SysKey, slot, nr);
      n, i := sysHash.Find(slot(nr), (h: HackedSyscall) => h.nr == nr);
    }

    // The -EFAULT branch is there, and is never taken.
    method DeregisterSystemCall(nr: nat) returns (r: int)
      requires Valid() && nr < table.Length
      modifies Repr
      ensures Valid() && this in Repr && sysHash in Repr && fresh(Repr - old(Repr))
      ensures r == if nr in old(nrs) then OK else ENOENT
      ensures nrs == old(nrs) - {nr}
      ensures r == OK ==> IsRemoval(old(sysHash.items), sysHash.items, nr)
      ensures r != OK ==> sysHash.items == old(sysHash.items)
    {
      hide HashTable.ChainOk, EveryItem, Bucketed, KeySet;
      if !flags[nr] {
        return ENOENT;
      }
      var toRemove, i := Search(nr);
      if toRemove == null {
        return EFAULT;
      }
      table[nr] := toRemove.item.original;
      flags[nr] := false;
      assert TableOk(nrs - {nr});
      Remove(nr, toRemove, i);
      Repr := {this, table, flags} + sysHash.Repr;
      assert fresh(Repr - old(Repr));
      return OK;
    }

    method Remove(nr: nat, n: Node<HackedSyscall>, ghost i: nat)
      requires HashOk() && sysHash.NodeAt(slot(nr), i, n) && n.item.nr == nr
      modifies `nrs, `sysLen, sysHash.Repr
      ensures HashOk() && fresh(sysHash.Repr - old(sysHash.Repr))
      ensures nrs == old(nrs) - {nr}
      ensures IsRemoval(old(sysHash.items), sysHash.items, nr)
    {
      RemovedKey(sysHash.items, SysKey, slot, slot(nr), i);
      EveryRemoved(sysHash.items, NodeOk, slot(nr), i);
      OnlyRemoved(sysHash.items, slot, slot(nr), i);
      sysHash.Delete(slot(nr), n, i);
      sysLen := sysLen - 1;
      nrs := nrs - {nr};
    }

    method CheckSyscall(nr: nat) returns (r: int)
      requires Valid() && nr < table.Length
      ensures r == if nr in nrs then 1 else 0
    {
      return if flags[nr] then 1 else 0;
    }

    // The numbers below n whose flag is set are the registered ones.
    lemma FlagsTell(n: nat)
      requires Valid() && n == table.Length
      ensures forall k :: k in nrs <==> 0 <= k < n && flags[k]
    {
      TableTells();
    }

    // The scan over the flag array stops when enough numbers are copied.
    method GetAllSyscalls(inMax: nat) returns (r: seq<nat>)
      requires Valid()
      ensures IsSmallest(r, nrs, inMax)
    {
      FlagsTell(table.Length);
      var max := if sysLen < inMax then sysLen else inMax;
      r := [];
      var i := 0;
      while i < flags.Length
        invariant i <= flags.Length && |r| <= max && Ascending(r)
        invariant forall k :: k in r <==> k < i && k in nrs
      {
        if |r| >= max {
          break;
        }
        if flags[i] {
          assert forall j :: 0 <= j < |r| ==> r[j] in r;
          r := r + [i];
        }
        i := i + 1;
      }
      if |r| < max {
        DifferentCount(r, nrs);
      }
    }
  }
}
