/** The registry of action keys, indexed by the insertion keys of a priority queue of expiration times. */
module KeyRegistry {
  import opened Options
  import opened IndexedHeap
  import opened IndexedQueue

  type ActionKey = nat

  class Registry {
    const keys: IndexedPriorityQueue<ActionKey>
    const maxTime: int

    ghost predicate Valid()
      reads this, keys
    {
      keys.Valid()
    }

    constructor (maxTime: int)
      ensures Valid() && keys.entries == map[] && fresh(keys) && this.maxTime == maxTime
    {
      keys := new IndexedPriorityQueue<ActionKey>();
      this.maxTime := maxTime;
    }

    method InsertKey(actionKey: ActionKey, expiration: int) returns (id: InsertKey)
      requires Valid() && keys.nextEpoch != U64_MAX
      modifies keys
      ensures Valid() && keys.Holds(id) && id.epoch !in old(keys.entries)
      ensures keys.entries == old(keys.entries)[id.epoch := Entry(expiration, actionKey, id.slabIdx)]
    {
      id := keys.Insert(expiration, actionKey);
    }

    /** A key inserted without deadline has the last time of all, which no time exceeds. */
    method InsertEternalKey(actionKey: ActionKey) returns (id: InsertKey)
      requires Valid() && keys.nextEpoch != U64_MAX
      modifies keys
      ensures Valid() && keys.Holds(id) && id.epoch !in old(keys.entries)
      ensures keys.entries == old(keys.entries)[id.epoch := Entry(maxTime, actionKey, id.slabIdx)]
    {
      id := keys.Insert(maxTime, actionKey);
    }

    method ExtractKey(id: InsertKey) returns (r: Option<ActionKey>)
      requires Valid()
      modifies keys
      ensures Valid()
      ensures r == if old(keys.Holds(id)) then Some(old(keys.entries)[id.epoch].value) else None
      ensures keys.entries == if old(keys.Holds(id)) then old(keys.entries) - {id.epoch} else old(keys.entries)
    {
      var pair := keys.Extract(id);
      r := match pair case None => None case Some(p) => Some(p.1);
    }

    /** Removes exactly the keys whose deadline predates `now`. */
    method RemoveExpiredKeys(now: int)
      requires Valid()
      modifies keys
      ensures Valid() && keys.entries == Unexpired(old(keys.entries), now)
      ensures forall e :: e in keys.entries <==> e in old(keys.entries) && old(keys.entries)[e].key >= now
    {
      ghost var before := keys.entries;
      while true
        invariant keys.Valid() && Unexpired(keys.entries, now) == Unexpired(before, now)
        decreases |keys.entries|
      {
        var expiration, e := keys.PeekKey();
        if expiration.None? || expiration.value >= now {
          assert Unexpired(keys.entries, now) == keys.entries;
          return;
        }
        ghost var entries := keys.entries;
        var pair, f := keys.Pull();
        LeastIsUnique(entries, e, f);
        assert |entries - {f}| < |entries|;
      }
    }
  }

  /** The entries whose deadline does not predate `now`. */
  ghost function Unexpired<V>(entries: map<nat, Entry<V>>, now: int): map<nat, Entry<V>> {
    map e | e in entries && entries[e].key >= now :: entries[e]
  }

  lemma {:induction false} LeastIsUnique<V>(entries: map<nat, Entry<V>>, e: nat, f: nat)
    requires IsLeast(entries, e) && IsLeast(entries, f)
    ensures e == f
  {
  }

  /** An eternal key is never removed for having expired. */
  lemma {:induction false} EternalKeysStay<V>(entries: map<nat, Entry<V>>, e: nat, maxTime: int, now: int)
    requires e in entries && entries[e].key == maxTime && now <= maxTime
    ensures e in Unexpired(entries, now) && Unexpired(entries, now)[e] == entries[e]
  {
  }
}
