// The registry of program names (src/throttling_api.c:217-296, :470-489, :573-604), each
// call run without interference. The nodes hold 16-byte buffers that are compared with
// strncmp and hashed up to the terminator; what they stand for is a set of C strings.
module ProgRegistry {
  import opened Buckets
  import opened CStrings
  import opened Errno
  import opened HashTable

  function ProgKey(name: seq<Byte>): seq<Byte> { Text(name) }

  class ProgRegistry {
    const progHash: HashTable<seq<Byte>>
    var progNameLen: int
    const slot: seq<Byte> -> nat  // jhash of the string, then its bucket

    ghost var progs: set<seq<Byte>>  // the registered strings
    ghost var Repr: set<object>

    ghost predicate Valid()
      reads this, Repr
    {
      && progHash in Repr && Repr == {this} + progHash.Repr && this !in progHash.Repr && progHash.Valid()
      && IntoSlots(slot, SLOTS) && Bucketed(progHash.items, ProgKey, slot)
      && EveryItem(progHash.items, Terminated)
      && progs == KeySet(progHash.items, ProgKey) && progNameLen == |progs|
    }

    // Every registered name is a string of at most 15 bytes.
    lemma ProgsAreNames()
      requires Valid()
      ensures forall t :: t in progs ==> IsName(t)
    {
      forall t | t in progs
        ensures IsName(t)
      {
        var b, i :| 0 <= b < |progHash.items| && 0 <= i < |progHash.items[b]| && ProgKey(progHash.items[b][i]) == t;
        TextIsName(progHash.items[b][i]);
      }
    }

    constructor (slot: seq<Byte> -> nat)
      requires IntoSlots(slot, SLOTS)
      ensures Valid() && this in Repr && fresh(Repr) && progs == {}
    {
      progHash := new HashTable<seq<Byte>>();
      progNameLen := 0;
      this.slot := slot;
      progs := {};
      new;
      NoKeys(progHash.items, ProgKey, slot);
      Repr := {this} + progHash.Repr;
    }

    // hash_for_each_possible_rcu with strncmp, over the bucket of the probe's string
    method Search(probe: seq<Byte>) returns (n: Node?<seq<Byte>>, ghost i: nat)
      requires Valid() && Terminated(probe)
      ensures n != null <==> Text(probe) in progs
      ensures n != null ==> progHash.NodeAt(slot(Text(probe)), i, n) && Text(n.item) == Text(probe)
    {
      var b := slot(Text(probe));
      forall j | 0 <= j < |progHash.items[b]|
        ensures Matches(progHash.items[b][j], probe) <==> Text(progHash.items[b][j]) == Text(probe)
      {
        StrncmpIsTextEquality(progHash.items[b][j], probe, COMM_LEN);
      }
      KeyInBucket(progHash.items, ProgKey, slot, Text(probe));
      n, i := progHash.Find(b, (name: seq<Byte>) => Matches(name, probe));
    }

    static predicate Matches(name: seq<Byte>, probe: seq<Byte>)
    {
      IsBuffer(name) && IsBuffer(probe) && Strncmp(name, probe, COMM_LEN) == 0
    }

    method RegisterProgName(progName: seq<Byte>) returns (r: int)
      requires Valid() && Terminated(progName)
      modifies Repr
      ensures Valid() && this in Repr && fresh(Repr - old(Repr))
      ensures progs == old(progs) + {Text(progName)}
      ensures r == if Text(progName) in old(progs) then EEXIST else OK
    {
      var name := Stored(progName);
      StoredMatchesText(progName, progName);
      var curr, _ := Search(progName);
      if curr != null {
        return EEXIST;
      }
      Insert(slot(Text(name)), name);
      return OK;
    }

    method Insert(b: nat, name: seq<Byte>)
      requires Valid() && Terminated(name) && b == slot(ProgKey(name)) && ProgKey(name) !in progs
      modifies Repr
      ensures Valid() && this in Repr && fresh(Repr - old(Repr))
      ensures progs == old(progs) + {ProgKey(name)}
    {
      hide HashTable.ChainOk, EveryItem, Bucketed, KeySet;
      ghost var items := progHash.items;
      progHash.Add(b, name);
      Repr := {this} + progHash.Repr;
      assert fresh(Repr - old(Repr));
      AddedKey(items, ProgKey, slot, name);
      EveryAdded(items, Terminated, b, name);
      progNameLen := progNameLen + 1;
      progs := progs + {ProgKey(name)};
    }

    method DeregisterProgName(progName: seq<Byte>) returns (r: int)
      requires Valid() && Terminated(progName)
      modifies Repr
      ensures Valid() && this in Repr && fresh(Repr - old(Repr))
      ensures progs == old(progs) - {Text(progName)}
      ensures r == if Text(progName) in old(progs) then OK else ENOENT
    {
      var curr, i := Search(progName);
      if curr == null {
        return ENOENT;
      }
      EveryRemoved(progHash.items, Terminated, slot(Text(progName)), i);
      RemovedKey(progHash.items, ProgKey, slot, slot(Text(progName)), i);
      progHash.Delete(slot(Text(progName)), curr, i);
      progNameLen := progNameLen - 1;
      progs := progs - {Text(progName)};
      Repr := {this} + progHash.Repr;
      return OK;
    }

    method CheckProgname(progName: seq<Byte>) returns (r: int)
      requires Valid() && Terminated(progName)
      ensures r == if Text(progName) in progs then 1 else 0
    {
      var curr, _ := Search(progName);
      return if curr != null then 1 else 0;
    }

    // The strings that are copied out; what follows a terminator is left unset.
    method GetAllProgs(inMax: nat) returns (r: seq<seq<Byte>>)
      requires Valid()
      ensures IsFetch(r, progs, inMax)
    {
      var max := if progNameLen < inMax then progNameLen else inMax;
      var names := progHash.Collect(max);
      PrefixIsFetch(progHash.items, ProgKey, slot, names, max);
      r := KeysOf(names, ProgKey);
    }
  }
}
