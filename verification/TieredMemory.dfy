/** The tiered memory manager over its stores (src/orchestra/memory/tiers.py, src/orchestra/memory/backends.py). */
module TieredMemory {
  import opened Wrappers
  import opened SlruPolicy

  // ---- The manager as a value ----

  /** The policy, and the warm and cold stores where configured. */
  datatype Tiers<V> = Tiers(policy: Slru<V>, warm: Option<map<string, V>>, cold: Option<map<string, V>>)

  function Get<V>(m: map<string, V>, k: string): Option<V> {
    if k in m then Some(m[k]) else None
  }

  function GetFrom<V>(m: Option<map<string, V>>, k: string): Option<V> {
    if m.Some? then Get(m.value, k) else None
  }

  function SetIn<V>(m: Option<map<string, V>>, k: string, v: V): Option<map<string, V>> {
    if m.Some? then Some(m.value[k := v]) else None
  }

  function DeleteIn<V>(m: Option<map<string, V>>, k: string): Option<map<string, V>> {
    if m.Some? then Some(m.value - {k}) else None
  }

  /** The value a retrieve finds: hot, then warm, then the warm store, then the cold one. */
  function Peek<V>(t: Tiers<V>, k: string): Option<V> {
    if Entry(t.policy, k).Some? then Entry(t.policy, k)
    else if GetFrom(t.warm, k).Some? then GetFrom(t.warm, k)
    else GetFrom(t.cold, k)
  }

  function Demoted<V>(t: Tiers<V>, k: string, tier: Tier): Tiers<V> {
    if !tier.Cold? || t.cold.None? then t else
    match Peek(t, k)
    case None => t
    case Some(v) => Tiers(Removed(t.policy, k), DeleteIn(t.warm, k), SetIn(t.cold, k, v))
  }

  /** The loop of _handle_evictions. */
  function Handled<V>(t: Tiers<V>, evicted: seq<(string, Tier)>): Tiers<V>
    decreases |evicted|
  {
    if evicted == [] then t else
    var (k, tier) := evicted[0];
    Handled(if tier.Cold? then Demoted(t, k, Cold) else t, evicted[1..])
  }

  function Stored<V>(t: Tiers<V>, k: string, v: V): Tiers<V> {
    var (policy, evicted) := Inserted(t.policy, k, v);
    Handled(t.(policy := policy, warm := SetIn(t.warm, k, v)), evicted)
  }

  /** The step of a retrieve that brings a value found in a store back into the policy. */
  function Fetched<V>(t: Tiers<V>, k: string, v: V): Tiers<V> {
    var (policy, evicted) := Inserted(t.policy, k, v);
    Handled(t.(policy := Accessed(policy, k).0), evicted)
  }

  function Retrieved<V>(t: Tiers<V>, k: string, promote: bool): Tiers<V> {
    if !promote then t
    else if Entry(t.policy, k).Some? then
      var (policy, _, evicted) := Accessed(t.policy, k);
      Handled(t.(policy := policy), evicted)
    else if GetFrom(t.warm, k).Some? then Fetched(t, k, GetFrom(t.warm, k).value)
    else if GetFrom(t.cold, k).Some? then
      var v := GetFrom(t.cold, k).value;
      var u := Fetched(t, k, v);
      u.(warm := SetIn(u.warm, k, v))
    else t
  }

  // ---- The stores and the manager ----

  /** A stored value and when it expires, if ever; a zero time counts as never. */
  datatype Item<V> = Item(value: V, expiry: Option<int>)

  predicate Expired<V>(item: Item<V>, now: int) {
    item.expiry.Some? && item.expiry.value != 0 && now > item.expiry.value
  }

  /** What the dictionary holds for its readers at a time. */
  function ViewOf<V>(data: map<string, Item<V>>, now: int): map<string, V> {
    map k | k in data && !Expired(data[k], now) :: data[k].value
  }

  function Until(ttl: Option<int>, now: int): Option<int> {
    if ttl.Some? then Some(now + ttl.value) else None
  }

  /** A value set is found until its time to live is over, and for ever without one; no other key is affected. */
  lemma SetLivesUntil<V>(data: map<string, Item<V>>, k: string, v: V, ttl: Option<int>, now: int, later: int)
    ensures var after := ViewOf(data[k := Item(v, Until(ttl, now))], later);
            && (forall x :: x != k ==> Get(after, x) == Get(ViewOf(data, later), x))
            && Get(after, k) == if ttl.Some? && now + ttl.value != 0 && later > now + ttl.value then None else Some(v)
  {
  }

  function Values<V>(data: map<string, Item<V>>): map<string, V> {
    map k | k in data :: data[k].value
  }

  /** No entry ever expires. */
  predicate Lasting<V>(data: map<string, Item<V>>) {
    forall k :: k in data ==> data[k].expiry.None?
  }

  class InMemoryMemoryBackend<V> {
    var data: map<string, Item<V>>

    ghost function View(now: int): map<string, V>
      reads this
    {
      ViewOf(data, now)
    }

    constructor ()
      ensures data == map[]
    {
      data := map[];
    }

    /** get; an entry that has expired is deleted on the way. */
    method Fetch(k: string, now: int) returns (v: Option<V>)
      modifies this
      ensures v == Get(old(View(now)), k) && View(now) == old(View(now))
      ensures data == if k in old(data) && Expired(old(data)[k], now) then old(data) - {k} else old(data)
      ensures old(Lasting(data)) ==> v == Get(Values(data), k) && data == old(data)
    {
      if k !in data {
        return None;
      }
      var item := data[k];
      if Expired(item, now) {
        data := data - {k};
        return None;
      }
      return Some(item.value);
    }

    method Set(k: string, v: V, ttl: Option<int>, now: int)
      modifies this
      ensures data == old(data)[k := Item(v, Until(ttl, now))]
      ensures ttl.None? && old(Lasting(data)) ==> Lasting(data) && Values(data) == old(Values(data))[k := v]
    {
      var expiry := if ttl.Some? then Some(now + ttl.value) else None;
      data := data[k := Item(v, expiry)];
    }

    method Delete(k: string)
      modifies this
      ensures data == old(data) - {k}
      ensures old(Lasting(data)) ==> Lasting(data) && Values(data) == old(Values(data)) - {k}
    {
      if k in data {
        data := data - {k};
      }
    }
  }

  /** An ideal cold store: what is stored is what is retrieved. */
  class ColdTierBackend<V> {
    var data: map<string, V>

    constructor ()
      ensures data == map[]
    {
      data := map[];
    }

    method Retrieve(k: string) returns (v: Option<V>)
      ensures v == Get(data, k)
    {
      return if k in data then Some(data[k]) else None;
    }

    method Store(k: string, v: V)
      modifies this
      ensures data == old(data)[k := v]
    {
      data := data[k := v];
    }
  }

  class TieredMemoryManager<V> {
    const policy: SLRUPolicy<V>
    const warm: InMemoryMemoryBackend?<V>
    const cold: ColdTierBackend?<V>

    constructor (warm: InMemoryMemoryBackend?<V>, cold: ColdTierBackend?<V>, hotMax: nat, warmMax: nat)
      requires warm == null || Lasting(warm.data)
      ensures Valid() && this.warm == warm && this.cold == cold && fresh(policy)
      ensures Contents() == Tiers(Slru(hotMax, warmMax, [], []),
                                  if warm == null then None else Some(Values(warm.data)),
                                  if cold == null then None else Some(cold.data))
    {
      this.warm, this.cold := warm, cold;
      policy := new SLRUPolicy(hotMax, warmMax);
    }

    ghost function Repr(): set<object> {
      {policy} + (if warm == null then {} else {warm}) + (if cold == null then {} else {cold})
    }

    ghost function Contents(): Tiers<V>
      reads Repr()
    {
      Tiers(policy.Segments(),
            if warm == null then None else Some(Values(warm.data)),
            if cold == null then None else Some(cold.data))
    }

    /** The manager never gives a time to live, so no entry of its warm store expires. */
    ghost predicate Valid()
      reads Repr()
    {
      warm == null || Lasting(warm.data)
    }

    method Store(k: string, v: V, now: int)
      requires Valid()
      modifies Repr()
      ensures Valid()
      ensures Contents() == Stored(old(Contents()), k, v)
    {
      var evicted := policy.Insert(k, v);
      if warm != null {
        warm.Set(k, v, None, now);
      }
      HandleEvictions(evicted, now);
    }

    method Retrieve(k: string, promote: bool, now: int) returns (r: Option<V>)
      requires Valid()
      modifies Repr()
      ensures Valid()
      ensures r == Peek(old(Contents()), k) && Contents() == Retrieved(old(Contents()), k, promote)
      decreases if promote then 3 else 0, 0
    {
      var evicted := [];
      var entry := Lookup(policy.hot, k);
      if entry.None? {
        entry := Lookup(policy.warm, k);
      }
      if entry.Some? {
        if promote {
          var _, due := policy.Access(k);
          evicted := due;
        }
        if evicted != [] {
          HandleEvictions(evicted, now);
        }
        return entry;
      }
      if warm != null {
        var found := warm.Fetch(k, now);
        if found.Some? {
          if promote {
            FetchIntoPolicy(k, found.value, now);
          }
          return found;
        }
      }
      if cold != null {
        var found := cold.Retrieve(k);
        if found.Some? {
          if promote {
            FetchIntoPolicy(k, found.value, now);
            if warm != null {
              warm.Set(k, found.value, None, now);
            }
          }
          return found;
        }
      }
      return None;
    }

    /** insert, then access, under one lock; only the evictions of the insert are looked at. */
    method FetchIntoPolicy(k: string, v: V, now: int)
      requires Valid()
      modifies Repr()
      ensures Valid()
      ensures Contents() == Fetched(old(Contents()), k, v)
      decreases 2, 1
    {
      var evicted := policy.Insert(k, v);
      var _, _ := policy.Access(k);
      HandleEvictions(evicted, now);
    }

    method HandleEvictions(evicted: seq<(string, Tier)>, now: int)
      requires Valid()
      modifies Repr()
      ensures Valid()
      ensures Contents() == Handled(old(Contents()), evicted)
      decreases 2, 0
    {
      for i := 0 to |evicted|
        invariant Valid()
        invariant Handled(old(Contents()), evicted) == Handled(Contents(), evicted[i..])
      {
        if evicted[i].1 == Cold {
          Demote(evicted[i].0, Cold, now);
        }
      }
    }

    method Promote(k: string, tier: Tier, now: int)
      requires Valid()
      modifies Repr()
      ensures Valid()
      ensures Contents() == if tier.Hot? then Retrieved(old(Contents()), k, true) else old(Contents())
    {
      if tier == Hot {
        var _ := Retrieve(k, true, now);
      }
    }

    method Demote(k: string, tier: Tier, now: int)
      requires Valid()
      modifies Repr()
      ensures Valid()
      ensures Contents() == Demoted(old(Contents()), k, tier)
      decreases 1, 0
    {
      if tier == Cold && cold != null {
        var v := Retrieve(k, false, now);
        if v.Some? {
          cold.Store(k, v.value);
          policy.Remove(k);
          if warm != null {
            warm.Delete(k);
          }
        }
      }
    }
  }
}
