/** When the tiered memory is a plain map: any history of calls against the last value stored. */
module TieredRefinement {
  import opened Wrappers
  import opened SlruPolicy
  import opened TieredMemory

  datatype Call<V> =
    | StoreCall(k: string, v: V)
    | RetrieveCall(k: string, promote: bool)
    | PromoteCall(k: string, tier: Tier)
    | DemoteCall(k: string, tier: Tier)

  function Call1<V>(t: Tiers<V>, call: Call<V>): Tiers<V> {
    match call
    case StoreCall(k, v) => Stored(t, k, v)
    case RetrieveCall(k, promote) => Retrieved(t, k, promote)
    case PromoteCall(k, tier) => if tier.Hot? then Retrieved(t, k, true) else t
    case DemoteCall(k, tier) => Demoted(t, k, tier)
  }

  function Calls<V>(t: Tiers<V>, history: seq<Call<V>>): Tiers<V> {
    if history == [] then t else Call1(Calls(t, history[..|history| - 1]), history[|history| - 1])
  }

  /** The plain map: the last value stored for each key. */
  function LastStored<V>(history: seq<Call<V>>): map<string, V> {
    if history == [] then map[] else
    var m := LastStored(history[..|history| - 1]);
    match history[|history| - 1]
    case StoreCall(k, v) => m[k := v]
    case _ => m
  }

  function Start<V>(hotMax: nat, warmMax: nat, withWarm: bool, withCold: bool): Tiers<V> {
    Tiers(Slru(hotMax, warmMax, [], []), if withWarm then Some(map[]) else None, if withCold then Some(map[]) else None)
  }

  /** Every entry of the policy, except perhaps that of one key, is in the warm store too. */
  ghost predicate Backed<V(!new)>(t: Tiers<V>, except: Option<string>) {
    && t.warm.Some? && Sound(t.policy)
    && forall x :: Entry(t.policy, x).Some? && except != Some(x) ==> Get(t.warm.value, x) == Entry(t.policy, x)
  }

  ghost predicate SameView<V(!new)>(t: Tiers<V>, u: Tiers<V>) {
    forall x :: Peek(u, x) == Peek(t, x)
  }

  /** A demotion moves a value to the cold store, over any stale copy, without changing what is found. */
  lemma DemoteKeepsView<V(!new)>(t: Tiers<V>, k: string, tier: Tier, except: Option<string>)
    requires Backed(t, except)
    ensures Backed(Demoted(t, k, tier), except) && SameView(t, Demoted(t, k, tier))
    ensures Demoted(t, k, tier).cold.Some? == t.cold.Some?
  {
    RemoveKeeps(t.policy, k);
  }

  lemma {:induction false} HandlingKeepsView<V(!new)>(t: Tiers<V>, evicted: seq<(string, Tier)>, except: Option<string>)
    requires Backed(t, except)
    ensures Backed(Handled(t, evicted), except) && SameView(t, Handled(t, evicted))
    decreases |evicted|
  {
    if evicted != [] {
      var (k, tier) := evicted[0];
      DemoteKeepsView(t, k, Cold, except);
      HandlingKeepsView(if tier.Cold? then Demoted(t, k, Cold) else t, evicted[1..], except);
    }
  }

  lemma StoreSetsOneKey<V(!new)>(t: Tiers<V>, k: string, v: V)
    requires Backed(t, None)
    ensures var u := Stored(t, k, v);
            Backed(u, None) && forall x :: Peek(u, x) == if x == k then Some(v) else Peek(t, x)
  {
    InsertKeeps(t.policy, k, v);
    var (policy, evicted) := Inserted(t.policy, k, v);
    var inserted := t.(policy := policy, warm := SetIn(t.warm, k, v));
    assert Backed(inserted, None);
    HandlingKeepsView(inserted, evicted, None);
  }

  lemma FetchKeepsView<V(!new)>(t: Tiers<V>, k: string, v: V, except: Option<string>)
    requires Backed(t, None) && Entry(t.policy, k).None? && Peek(t, k) == Some(v)
    requires (except == None && GetFrom(t.warm, k) == Some(v)) || except == Some(k)
    ensures Backed(Fetched(t, k, v), except) && SameView(t, Fetched(t, k, v))
  {
    InsertKeeps(t.policy, k, v);
    var (policy, evicted) := Inserted(t.policy, k, v);
    AccessKeeps(policy, k);
    var fetched := t.(policy := Accessed(policy, k).0);
    assert Backed(fetched, except);
    forall x ensures Peek(fetched, x) == Peek(t, x) {
      if Entry(fetched.policy, x).None? && Entry(t.policy, x).Some? {
        assert Get(t.warm.value, x) == Entry(t.policy, x);
      }
    }
    HandlingKeepsView(fetched, evicted, except);
  }

  lemma RetrieveKeepsView<V(!new)>(t: Tiers<V>, k: string, promote: bool)
    requires Backed(t, None)
    ensures Backed(Retrieved(t, k, promote), None) && SameView(t, Retrieved(t, k, promote))
  {
    if promote {
      if Entry(t.policy, k).Some? {
        AccessKeeps(t.policy, k);
        var (policy, _, evicted) := Accessed(t.policy, k);
        HandlingKeepsView(t.(policy := policy), evicted, None);
      } else if GetFrom(t.warm, k).Some? {
        FetchKeepsView(t, k, GetFrom(t.warm, k).value, None);
      } else if GetFrom(t.cold, k).Some? {
        FetchKeepsView(t, k, GetFrom(t.cold, k).value, Some(k));
        FetchedEntry(t, k, GetFrom(t.cold, k).value);
      }
    }
  }

  /** After a fetch from the cold store the key's entry, if it stayed, holds the fetched value. */
  lemma FetchedEntry<V(!new)>(t: Tiers<V>, k: string, v: V)
    requires Backed(t, None) && Peek(t, k) == Some(v) && Entry(t.policy, k).None? && GetFrom(t.warm, k).None?
    ensures var u := Fetched(t, k, v); Entry(u.policy, k).Some? ==> Entry(u.policy, k) == Some(v)
  {
    FetchKeepsView(t, k, v, Some(k));
  }

  lemma CallRefines<V(!new)>(t: Tiers<V>, call: Call<V>)
    requires Backed(t, None)
    ensures var u := Call1(t, call);
            && Backed(u, None)
            && forall x :: Peek(u, x) == if call.StoreCall? && call.k == x then Some(call.v) else Peek(t, x)
  {
    match call {
      case StoreCall(k, v) => StoreSetsOneKey(t, k, v);
      case RetrieveCall(k, promote) => RetrieveKeepsView(t, k, promote);
      case PromoteCall(k, tier) => RetrieveKeepsView(t, k, true);
      case DemoteCall(k, tier) => DemoteKeepsView(t, k, tier, None);
    }
  }

  /** With a warm store, after any history a retrieve finds the last value stored, whatever the capacities. */
  lemma {:induction false} HistoryRefinesMap<V(!new)>(hotMax: nat, warmMax: nat, withCold: bool, history: seq<Call<V>>)
    ensures var t := Calls(Start(hotMax, warmMax, true, withCold), history);
            Backed(t, None) && forall k :: Peek(t, k) == Get(LastStored(history), k)
    decreases |history|
  {
    if history != [] {
      var init := history[..|history| - 1];
      HistoryRefinesMap(hotMax, warmMax, withCold, init);
      CallRefines(Calls(Start(hotMax, warmMax, true, withCold), init), history[|history| - 1]);
    }
  }

  // ---- Without a warm store ----

  /** The n-th of endlessly many distinct keys. */
  function Key(n: nat): string {
    seq(n, _ => 'k')
  }

  function Filling<V>(v: V, n: nat): seq<Call<V>> {
    seq(n, i requires 0 <= i < n => StoreCall(Key(i), v))
  }

  function Filled<V>(v: V, n: nat): Ordered<V> {
    seq(n, i requires 0 <= i < n => (Key(i), v))
  }

  lemma NextKeyFresh<V>(v: V, n: nat)
    ensures !Has(Filled(v, n), Key(n)) && Filled(v, n) + [(Key(n), v)] == Filled(v, n + 1)
  {
    LookupIn(Filled(v, n), Key(n));
    forall i | 0 <= i < n ensures Filled(v, n)[i].0 != Key(n) {
    }
  }

  lemma {:induction false} FillingFits<V(!new)>(hotMax: nat, warmMax: nat, withCold: bool, v: V, n: nat)
    requires n <= warmMax
    ensures Calls(Start(hotMax, warmMax, false, withCold), Filling(v, n)) ==
            Start(hotMax, warmMax, false, withCold).(policy := Slru(hotMax, warmMax, [], Filled(v, n)))
  {
    if n > 0 {
      assert Filling(v, n)[..n - 1] == Filling(v, n - 1);
      FillingFits(hotMax, warmMax, withCold, v, n - 1);
      NextKeyFresh(v, n - 1);
    }
  }

  /** Storing one key more than warm holds evicts the first, and its value is nowhere. */
  lemma OverfillingLoses<V(!new)>(hotMax: nat, warmMax: nat, withCold: bool, v: V)
    ensures Peek(Calls(Start(hotMax, warmMax, false, withCold), Filling(v, warmMax + 1)), Key(0)) == None
  {
    var start, n := Start<V>(hotMax, warmMax, false, withCold), warmMax;
    assert Filling(v, n + 1)[..n] == Filling(v, n);
    FillingFits(hotMax, warmMax, withCold, v, n);
    NextKeyFresh(v, n);
    var full := Slru(hotMax, warmMax, [], Filled(v, n + 1));
    var (policy, evicted) := Inserted(Slru(hotMax, warmMax, [], Filled(v, n)), Key(n), v);
    OldestWarmEvicted(full);
    assert DemoteHot(full) == (full, []);
    assert evicted == [] + Tagged(full.warm[..1], Cold) == [(Key(0), Cold)];
    assert policy == full.(warm := full.warm[1..]);
    LookupIn(full.warm[1..], Key(0));
    forall i | 0 <= i < n ensures full.warm[1..][i].0 != Key(0) {
    }
    var stored := start.(policy := policy);
    assert Peek(stored, Key(0)) == None;
    assert Handled(stored, [(Key(0), Cold)]) == Handled(stored, [(Key(0), Cold)][1..]);
  }

  /** The manager behaves as a plain map over all histories. */
  ghost predicate IsMap<V(!new)>(hotMax: nat, warmMax: nat, withWarm: bool, withCold: bool) {
    forall history: seq<Call<V>>, k ::
      Peek(Calls(Start(hotMax, warmMax, withWarm, withCold), history), k) == Get(LastStored(history), k)
  }

  lemma {:induction false} FillingStores<V>(v: V, n: nat)
    requires n > 0
    ensures Key(0) in LastStored(Filling(v, n))
  {
    assert Filling(v, n)[..n - 1] == Filling(v, n - 1);
    if n > 1 {
      FillingStores(v, n - 1);
    }
  }

  /** Whatever the capacities and with or without a cold store, it is a map exactly when it has a warm store. */
  lemma MapExactlyWithWarmStore<V(!new)>(hotMax: nat, warmMax: nat, withWarm: bool, withCold: bool, v: V)
    ensures IsMap<V>(hotMax, warmMax, withWarm, withCold) <==> withWarm
  {
    if withWarm {
      forall history: seq<Call<V>>, k
        ensures Peek(Calls(Start(hotMax, warmMax, true, withCold), history), k) == Get(LastStored(history), k)
      {
        HistoryRefinesMap(hotMax, warmMax, withCold, history);
      }
    } else {
      OverfillingLoses(hotMax, warmMax, withCold, v);
      FillingStores(v, warmMax + 1);
      assert Get(LastStored(Filling(v, warmMax + 1)), Key(0)) != None;
    }
  }
}
