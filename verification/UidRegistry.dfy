// The registry of user ids (src/throttling_api.c:140-213, :452-468, :539-571), each call
// run without interference.
module UidRegistry {
  import opened Buckets
  import opened Errno
  import opened HashTable

  function UidKey(u: nat): nat { u }

  class UidRegistry {
    const uidHash: HashTable<nat>
    var uidsLen: int
    const slot: nat -> nat

    ghost var uids: set<nat>  // what is registered
    ghost var Repr: set<object>

    ghost predicate Valid()
      reads this, Repr
    {
      && uidHash in Repr && Repr == {this} + uidHash.Repr && this !in uidHash.Repr && uidHash.Valid()
      && IntoSlots(slot, SLOTS) && Bucketed(uidHash.items, UidKey, slot)
      && uids == KeySet(uidHash.items, UidKey) && uidsLen == |uids|
    }

    constructor (slot: nat -> nat)
      requires IntoSlots(slot, SLOTS)
      ensures Valid() && this in Repr && fresh(Repr) && uids == {}
    {
      uidHash := new HashTable<nat>();
      uidsLen := 0;
      this.slot := slot;
      uids := {};
      new;
      NoKeys(uidHash.items, UidKey, slot);
      Repr := {this} + uidHash.Repr;
    }

    // hash_for_each_possible_rcu with the test on the id
    method Search(uid: nat) returns (n: Node?<nat>, ghost i: nat)
      requires Valid()
      ensures n != null <==> uid in uids
      ensures n != null ==> uidHash.NodeAt(slot(uid), i, n) && n.item == uid
    {
      KeyInBucket(uidHash.items, UidKey, slot, uid);
      n, i := uidHash.Find(slot(uid), (u: nat) => u == uid);
    }

    method RegisterUserId(uid: nat) returns (r: int)
      requires Valid()
      modifies Repr
      ensures Valid() && this in Repr && fresh(Repr - old(Repr))
      ensures uids == old(uids) + {uid}
      ensures r == if uid in old(uids) then EEXIST else OK
    {
      hide HashTable.ChainOk, Bucketed, KeySet;
      var known := CheckUid(uid);
      if known == 1 {
        return EEXIST;
      }
      ghost var items := uidHash.items;
      uidHash.Add(slot(uid), uid);
      Repr := {this} + uidHash.Repr;
      assert fresh(Repr - old(Repr));
      AddedKey(items, UidKey, slot, uid);
      uidsLen := uidsLen + 1;
      uids := uids + {uid};
      return OK;
    }

    method DeregisterUserId(uid: nat) returns (r: int)
      requires Valid()
      modifies Repr
      ensures Valid() && this in Repr && fresh(Repr - old(Repr))
      ensures uids == old(uids) - {uid}
      ensures r == if uid in old(uids) then OK else ENOENT
    {
      var curr, i := Search(uid);
      if curr == null {
        return ENOENT;
      }
      RemovedKey(uidHash.items, UidKey, slot, slot(uid), i);
      uidHash.Delete(slot(uid), curr, i);
      uidsLen := uidsLen - 1;
      uids := uids - {uid};
      Repr := {this} + uidHash.Repr;
      return OK;
    }

    method CheckUid(uid: nat) returns (r: int)
      requires Valid()
      ensures r == if uid in uids then 1 else 0
    {
      var curr, _ := Search(uid);
      return if curr != null then 1 else 0;
    }

    method GetAllUids(inMax: nat) returns (r: seq<nat>)
      requires Valid()
      ensures IsFetch(r, uids, inMax)
    {
      var max := if uidsLen < inMax then uidsLen else inMax;
      r := uidHash.Collect(max);
      PrefixIsFetch(uidHash.items, UidKey, slot, r, max);
      assert KeysOf(r, UidKey) == r;
    }
  }
}
