/** The segmented LRU policy (src/orchestra/memory/tiers.py, SLRUPolicy). */
module SlruPolicy {
  import opened Wrappers

  // ---- Insertion-ordered dicts ----

  type Ordered<V> = seq<(string, V)>

  function Lookup<V>(d: Ordered<V>, k: string): Option<V> {
    if d == [] then None
    else if d[0].0 == k then Some(d[0].1)
    else Lookup(d[1..], k)
  }

  predicate Has<V>(d: Ordered<V>, k: string) {
    Lookup(d, k).Some?
  }

  /** pop(key, None) */
  function Without<V>(d: Ordered<V>, k: string): Ordered<V> {
    if d == [] then []
    else if d[0].0 == k then d[1..]
    else [d[0]] + Without(d[1..], k)
  }

  /** d[key] = value: in place when the key is there, at the end otherwise. */
  function Put<V>(d: Ordered<V>, k: string, v: V): Ordered<V> {
    if d == [] then [(k, v)]
    else if d[0].0 == k then [(k, v)] + d[1..]
    else [d[0]] + Put(d[1..], k, v)
  }

  ghost predicate Unique<V>(d: Ordered<V>) {
    forall i, j :: 0 <= i < j < |d| ==> d[i].0 != d[j].0
  }

  lemma {:induction false} LookupIn<V>(d: Ordered<V>, k: string)
    ensures Has(d, k) <==> exists i :: 0 <= i < |d| && d[i].0 == k
    ensures Has(d, k) ==> (k, Lookup(d, k).value) in d
  {
    if d != [] && d[0].0 != k {
      LookupIn(d[1..], k);
      if Has(d, k) {
        var i :| 0 <= i < |d[1..]| && d[1..][i] == (k, Lookup(d, k).value);
        assert d[i + 1] == (k, Lookup(d, k).value);
      }
    }
  }

  lemma {:induction false} WithoutSpec<V>(d: Ordered<V>, k: string)
    requires Unique(d)
    ensures Unique(Without(d, k)) && !Has(Without(d, k), k)
    ensures |Without(d, k)| == |d| - if Has(d, k) then 1 else 0
    ensures forall x :: x != k ==> Lookup(Without(d, k), x) == Lookup(d, x)
    ensures forall e :: e in Without(d, k) ==> e in d
  {
    if d != [] {
      if d[0].0 == k {
        LookupIn(d[1..], k);
      } else {
        WithoutSpec(d[1..], k);
        var rest := Without(d[1..], k);
        forall i | 0 <= i < |rest| ensures rest[i].0 != d[0].0 {
          assert rest[i] in d[1..];
        }
      }
    }
  }

  lemma {:induction false} PutSpec<V>(d: Ordered<V>, k: string, v: V)
    requires Unique(d)
    ensures Unique(Put(d, k, v))
    ensures |Put(d, k, v)| == |d| + if Has(d, k) then 0 else 1
    ensures forall x :: Lookup(Put(d, k, v), x) == if x == k then Some(v) else Lookup(d, x)
    ensures !Has(d, k) ==> Put(d, k, v) == d + [(k, v)]
    ensures forall e :: e in Put(d, k, v) ==> e == (k, v) || e in d
  {
    if d != [] && d[0].0 != k {
      PutSpec(d[1..], k, v);
      var rest := Put(d[1..], k, v);
      forall i | 0 <= i < |rest| ensures rest[i].0 != d[0].0 {
        assert rest[i] in rest;
      }
    }
  }

  lemma {:induction false} LookupAppend<V>(d: Ordered<V>, more: Ordered<V>, k: string)
    ensures Lookup(d + more, k) == if Has(d, k) then Lookup(d, k) else Lookup(more, k)
  {
    if d == [] {
      assert d + more == more;
    } else {
      assert (d + more)[1..] == d[1..] + more;
      if d[0].0 != k {
        LookupAppend(d[1..], more, k);
      }
    }
  }

  // ---- The policy as a value ----

  datatype Tier = Hot | Warm | Cold

  datatype Slru<V> = Slru(hotMax: nat, warmMax: nat, hot: Ordered<V>, warm: Ordered<V>)

  /** Pop the oldest hot entries into warm until hot fits. */
  function DemoteHot<V>(p: Slru<V>): (Slru<V>, seq<(string, Tier)>)
    decreases |p.hot|
  {
    if |p.hot| <= p.hotMax then (p, []) else
    var (k, v) := p.hot[0];
    var (q, evicted) := DemoteHot(p.(hot := p.hot[1..], warm := Put(p.warm, k, v)));
    (q, [(k, Warm)] + evicted)
  }

  /** Pop the oldest warm entries until warm fits. */
  function EvictWarm<V>(p: Slru<V>): (Slru<V>, seq<(string, Tier)>)
    decreases |p.warm|
  {
    if |p.warm| <= p.warmMax then (p, []) else
    var (q, evicted) := EvictWarm(p.(warm := p.warm[1..]));
    (q, [(p.warm[0].0, Cold)] + evicted)
  }

  function Due<V>(p: Slru<V>): (Slru<V>, seq<(string, Tier)>) {
    var (q, demoted) := DemoteHot(p);
    var (r, evicted) := EvictWarm(q);
    (r, demoted + evicted)
  }

  function Accessed<V>(p: Slru<V>, k: string): (Slru<V>, Option<Tier>, seq<(string, Tier)>) {
    match Lookup(p.hot, k)
    case Some(v) => (p.(hot := Without(p.hot, k) + [(k, v)]), None, [])
    case None =>
      match Lookup(p.warm, k)
      case None => (p, None, [])
      case Some(v) =>
        var (q, evicted) := Due(p.(hot := p.hot + [(k, v)], warm := Without(p.warm, k)));
        (q, Some(Hot), evicted)
  }

  function Inserted<V>(p: Slru<V>, k: string, v: V): (Slru<V>, seq<(string, Tier)>) {
    if Has(p.hot, k) then (p.(hot := Put(p.hot, k, v)), [])
    else if Has(p.warm, k) then (p.(warm := Put(p.warm, k, v)), [])
    else Due(p.(warm := p.warm + [(k, v)]))
  }

  function Removed<V>(p: Slru<V>, k: string): Slru<V> {
    p.(hot := Without(p.hot, k), warm := Without(p.warm, k))
  }

  /** The entry of a key, in either segment. */
  function Entry<V>(p: Slru<V>, k: string): Option<V> {
    if Has(p.hot, k) then Lookup(p.hot, k) else Lookup(p.warm, k)
  }

  // ---- The policy object ----

  class SLRUPolicy<V> {
    const hotMax: nat
    const warmMax: nat
    var hot: Ordered<V>
    var warm: Ordered<V>

    constructor (hotMax: nat, warmMax: nat)
      ensures Segments() == Slru(hotMax, warmMax, [], [])
    {
      this.hotMax, this.warmMax, hot, warm := hotMax, warmMax, [], [];
    }

    function Segments(): Slru<V>
      reads this
    {
      Slru(hotMax, warmMax, hot, warm)
    }

    method Access(k: string) returns (promoted: Option<Tier>, evicted: seq<(string, Tier)>)
      modifies this
      ensures (Segments(), promoted, evicted) == Accessed(old(Segments()), k)
    {
      var entry := Lookup(hot, k);
      if entry.Some? {
        hot := Without(hot, k) + [(k, entry.value)];
        return None, [];
      }
      entry := Lookup(warm, k);
      if entry.Some? {
        warm := Without(warm, k);
        hot := hot + [(k, entry.value)];
        evicted := EvictionsDue();
        return Some(Hot), evicted;
      }
      return None, [];
    }

    method Insert(k: string, v: V) returns (evicted: seq<(string, Tier)>)
      modifies this
      ensures (Segments(), evicted) == Inserted(old(Segments()), k, v)
    {
      if Has(hot, k) {
        hot := Put(hot, k, v);
        return [];
      }
      if Has(warm, k) {
        warm := Put(warm, k, v);
        return [];
      }
      warm := warm + [(k, v)];
      evicted := EvictionsDue();
    }

    method EvictionsDue() returns (evicted: seq<(string, Tier)>)
      modifies this
      ensures (Segments(), evicted) == Due(old(Segments()))
    {
      evicted := [];
      ghost var all := DemoteHot(Segments());
      while |hot| > hotMax
        invariant all.0 == DemoteHot(Segments()).0 && all.1 == evicted + DemoteHot(Segments()).1
        decreases |hot|
      {
        var (k, v) := hot[0];
        hot, warm := hot[1..], Put(warm, k, v);
        assert evicted + ([(k, Tier.Warm)] + DemoteHot(Segments()).1) ==
               evicted + [(k, Tier.Warm)] + DemoteHot(Segments()).1;
        evicted := evicted + [(k, Tier.Warm)];
      }
      assert evicted + [] == evicted;
      ghost var demoted, rest := evicted, EvictWarm(Segments());
      while |warm| > warmMax
        invariant rest.0 == EvictWarm(Segments()).0 && demoted + rest.1 == evicted + EvictWarm(Segments()).1
        decreases |warm|
      {
        var k := warm[0].0;
        warm := warm[1..];
        assert evicted + ([(k, Tier.Cold)] + EvictWarm(Segments()).1) ==
               evicted + [(k, Tier.Cold)] + EvictWarm(Segments()).1;
        evicted := evicted + [(k, Tier.Cold)];
      }
      assert evicted + [] == evicted;
    }

    method Remove(k: string)
      modifies this
      ensures Segments() == Removed(old(Segments()), k)
    {
      hot := Without(hot, k);
      warm := Without(warm, k);
    }
  }

  // ---- What the locked sections keep ----

  /** Segments without duplicates, disjoint, within capacity. */
  ghost predicate Sound<V>(p: Slru<V>) {
    Disjoint(p) && |p.hot| <= p.hotMax && |p.warm| <= p.warmMax
  }

  ghost predicate Disjoint<V>(p: Slru<V>) {
    Unique(p.hot) && Unique(p.warm) && forall k :: Has(p.hot, k) ==> !Has(p.warm, k)
  }

  predicate Reported(evicted: seq<(string, Tier)>, k: string) {
    (k, Cold) in evicted
  }

  /** Every entry of p is still there, or reported as evicted to COLD; nothing else appears. */
  ghost predicate KeepsEntries<V(!new)>(p: Slru<V>, q: Slru<V>, evicted: seq<(string, Tier)>) {
    forall k :: Entry(q, k) == if Reported(evicted, k) then None else Entry(p, k)
  }

  lemma ReportedConcat(evicted: seq<(string, Tier)>, more: seq<(string, Tier)>)
    ensures forall k :: Reported(evicted + more, k) <==> Reported(evicted, k) || Reported(more, k)
  {
  }

  lemma {:induction false} DemoteHotKeeps<V(!new)>(p: Slru<V>)
    requires Disjoint(p)
    ensures var (q, evicted) := DemoteHot(p);
            && Disjoint(q) && |q.hot| <= q.hotMax && q.hotMax == p.hotMax && q.warmMax == p.warmMax
            && |q.hot| + |q.warm| == |p.hot| + |p.warm|
            && (forall k :: Entry(q, k) == Entry(p, k))
            && (forall k :: !Reported(evicted, k))
    decreases |p.hot|
  {
    if |p.hot| > p.hotMax {
      var (k, v) := p.hot[0];
      assert Has(p.hot, k);
      var next := p.(hot := p.hot[1..], warm := Put(p.warm, k, v));
      PutSpec(p.warm, k, v);
      LookupIn(p.hot[1..], k);
      forall x | Has(next.hot, x) ensures !Has(next.warm, x) {
        assert Has(p.hot, x);
      }
      DemoteHotKeeps(next);
      ReportedConcat([(k, Warm)], DemoteHot(next).1);
    }
  }

  lemma {:induction false} EvictWarmKeeps<V(!new)>(p: Slru<V>)
    requires Disjoint(p)
    ensures var (q, evicted) := EvictWarm(p);
            && Disjoint(q) && q == p.(warm := q.warm)
            && |q.warm| <= q.warmMax && |p.warm| == |q.warm| + |evicted|
            && KeepsEntries(p, q, evicted)
    decreases |p.warm|
  {
    if |p.warm| > p.warmMax {
      var k, next := p.warm[0].0, p.(warm := p.warm[1..]);
      LookupIn(p.warm[1..], k);
      forall x | Has(next.hot, x) ensures !Has(next.warm, x) {
        assert !Has(p.warm, x);
        LookupIn(p.warm, x);
        LookupIn(p.warm[1..], x);
      }
      assert Has(p.warm, k) && !Has(p.hot, k);
      EvictWarmKeeps(next);
      var evicted := EvictWarm(next).1;
      ReportedConcat([(k, Cold)], evicted);
    }
  }

  /** Capacities are restored, and exactly the keys that leave are reported. */
  lemma DueKeeps<V(!new)>(p: Slru<V>)
    requires Disjoint(p)
    ensures var (q, evicted) := Due(p);
            && Sound(q) && q.hotMax == p.hotMax && q.warmMax == p.warmMax && KeepsEntries(p, q, evicted)
            && (|p.hot| + |p.warm| <= p.warmMax + (if |p.hot| < p.hotMax then |p.hot| else p.hotMax) ==>
                  forall k :: !Reported(evicted, k))
  {
    DemoteHotKeeps(p);
    EvictWarmKeeps(DemoteHot(p).0);
    HotAfterDemotion(p);
    ReportedConcat(DemoteHot(p).1, EvictWarm(DemoteHot(p).0).1);
  }

  lemma {:induction false} HotAfterDemotion<V>(p: Slru<V>)
    ensures |DemoteHot(p).0.hot| == if |p.hot| < p.hotMax then |p.hot| else p.hotMax
    decreases |p.hot|
  {
    if |p.hot| > p.hotMax {
      HotAfterDemotion(p.(hot := p.hot[1..], warm := Put(p.warm, p.hot[0].0, p.hot[0].1)));
    }
  }

  // ---- Eviction takes the oldest first ----

  function Tagged<V>(d: Ordered<V>, tier: Tier): seq<(string, Tier)> {
    seq(|d|, i requires 0 <= i < |d| => (d[i].0, tier))
  }

  /** Of an over-full cache the oldest hot entries go to the end of warm, then the oldest warm ones leave. */
  lemma {:induction false} OldestHotDemoted<V(!new)>(p: Slru<V>)
    requires Disjoint(p)
    ensures var n := if |p.hot| > p.hotMax then |p.hot| - p.hotMax else 0;
            DemoteHot(p) == (p.(hot := p.hot[n..], warm := p.warm + p.hot[..n]), Tagged(p.hot[..n], Warm))
    decreases |p.hot|
  {
    if |p.hot| > p.hotMax {
      var (k, v) := p.hot[0];
      assert Has(p.hot, k);
      PutSpec(p.warm, k, v);
      LookupIn(p.hot[1..], k);
      var next, n := p.(hot := p.hot[1..], warm := Put(p.warm, k, v)), |p.hot| - p.hotMax;
      forall x | Has(next.hot, x) ensures !Has(next.warm, x) {
        assert Has(p.hot, x);
      }
      OldestHotDemoted(next);
      assert next.hot[n - 1..] == p.hot[n..];
      assert p.hot[..n] == [(k, v)] + next.hot[..n - 1];
      assert p.warm + [(k, v)] + next.hot[..n - 1] == p.warm + p.hot[..n];
      assert [(k, Warm)] + Tagged(next.hot[..n - 1], Warm) == Tagged(p.hot[..n], Warm);
    } else {
      assert p.hot[0..] == p.hot && p.warm + p.hot[..0] == p.warm && Tagged(p.hot[..0], Warm) == [];
    }
  }

  lemma {:induction false} OldestWarmEvicted<V>(p: Slru<V>)
    ensures var n := if |p.warm| > p.warmMax then |p.warm| - p.warmMax else 0;
            EvictWarm(p) == (p.(warm := p.warm[n..]), Tagged(p.warm[..n], Cold))
    decreases |p.warm|
  {
    if |p.warm| > p.warmMax {
      var next, n := p.(warm := p.warm[1..]), |p.warm| - p.warmMax;
      OldestWarmEvicted(next);
      assert next.warm[n - 1..] == p.warm[n..];
      assert p.warm[..n] == [p.warm[0]] + next.warm[..n - 1];
      assert [(p.warm[0].0, Cold)] + Tagged(next.warm[..n - 1], Cold) == Tagged(p.warm[..n], Cold);
    } else {
      assert p.warm[0..] == p.warm && Tagged(p.warm[..0], Cold) == [];
    }
  }

  // ---- The locked sections of the manager, in any order ----

  lemma AppendFresh<V>(d: Ordered<V>, k: string, v: V)
    requires Unique(d) && !Has(d, k)
    ensures Unique(d + [(k, v)])
    ensures forall x :: Lookup(d + [(k, v)], x) == if x == k then Some(v) else Lookup(d, x)
  {
    PutSpec(d, k, v);
  }

  /** An access loses nothing and, when the policy is sound, evicts nothing to COLD. */
  lemma AccessKeeps<V(!new)>(p: Slru<V>, k: string)
    requires Sound(p)
    ensures var (q, promoted, evicted) := Accessed(p, k);
            && Sound(q) && q.hotMax == p.hotMax && q.warmMax == p.warmMax
            && (forall x :: Entry(q, x) == Entry(p, x)) && (forall x :: !Reported(evicted, x))
  {
    if Has(p.hot, k) {
      WithoutSpec(p.hot, k);
      AppendFresh(Without(p.hot, k), k, Lookup(p.hot, k).value);
    } else if Has(p.warm, k) {
      WithoutSpec(p.warm, k);
      AppendFresh(p.hot, k, Lookup(p.warm, k).value);
      var moved := p.(hot := p.hot + [(k, Lookup(p.warm, k).value)], warm := Without(p.warm, k));
      forall x | Has(moved.hot, x) ensures !Has(moved.warm, x) {
        assert x == k || (Has(p.hot, x) && !Has(p.warm, x));
      }
      DueKeeps(moved);
    }
  }

  /** An insert sets its key, and what leaves is reported. */
  lemma InsertKeeps<V(!new)>(p: Slru<V>, k: string, v: V)
    requires Sound(p)
    ensures var (q, evicted) := Inserted(p, k, v);
            && Sound(q) && q.hotMax == p.hotMax && q.warmMax == p.warmMax
            && forall x :: Entry(q, x) == if Reported(evicted, x) then None else if x == k then Some(v) else Entry(p, x)
  {
    if Has(p.hot, k) {
      PutSpec(p.hot, k, v);
    } else if Has(p.warm, k) {
      PutSpec(p.warm, k, v);
    } else {
      AppendFresh(p.warm, k, v);
      DueKeeps(p.(warm := p.warm + [(k, v)]));
    }
  }

  lemma RemoveKeeps<V(!new)>(p: Slru<V>, k: string)
    requires Sound(p)
    ensures var q := Removed(p, k);
            && Sound(q) && q.hotMax == p.hotMax && q.warmMax == p.warmMax
            && forall x :: Entry(q, x) == if x == k then None else Entry(p, x)
  {
    WithoutSpec(p.hot, k);
    WithoutSpec(p.warm, k);
    forall x | Has(Without(p.hot, k), x) ensures !Has(Without(p.warm, k), x) {
      assert x == k || (Has(p.hot, x) && !Has(p.warm, x));
    }
  }

  /** One section run under the policy lock. */
  datatype Section<V> = AccessOf(k: string) | InsertOf(k: string, v: V) | FetchOf(k: string, v: V) | RemoveOf(k: string)

  /** The policy afterwards, and the evictions the manager looks at: a fetch drops those of its access. */
  function Locked<V>(p: Slru<V>, op: Section<V>): (Slru<V>, seq<(string, Tier)>) {
    match op
    case AccessOf(k) => var (q, _, evicted) := Accessed(p, k); (q, evicted)
    case InsertOf(k, v) => Inserted(p, k, v)
    case FetchOf(k, v) => var (q, evicted) := Inserted(p, k, v); (Accessed(q, k).0, evicted)
    case RemoveOf(k) => (Removed(p, k), [])
  }

  /** The evictions a fetch ignores, those of its access, never contain a COLD entry. */
  lemma IgnoredEvictionsAreNotCold<V(!new)>(p: Slru<V>, k: string, v: V)
    requires Sound(p)
    ensures forall x :: !Reported(Accessed(Inserted(p, k, v).0, k).2, x)
  {
    InsertKeeps(p, k, v);
    AccessKeeps(Inserted(p, k, v).0, k);
  }

  /** What a section does to the entry of x. */
  ghost predicate SectionEffect<V(!new)>(p: Slru<V>, op: Section<V>, x: string) {
    var (q, evicted) := Locked(p, op);
    Entry(q, x) ==
      if Reported(evicted, x) || op == RemoveOf(x) then None
      else if (op.InsertOf? || op.FetchOf?) && op.k == x then Some(op.v)
      else Entry(p, x)
  }

  lemma SectionKeeps<V(!new)>(p: Slru<V>, op: Section<V>)
    requires Sound(p)
    ensures Sound(Locked(p, op).0) && forall x :: SectionEffect(p, op, x)
  {
    match op {
      case AccessOf(k) => AccessKeeps(p, k);
      case InsertOf(k, v) => InsertKeeps(p, k, v);
      case FetchOf(k, v) =>
        InsertKeeps(p, k, v);
        AccessKeeps(Inserted(p, k, v).0, k);
      case RemoveOf(k) => RemoveKeeps(p, k);
    }
  }

  function AfterSections<V>(p: Slru<V>, ops: seq<Section<V>>): Slru<V> {
    if ops == [] then p else Locked(AfterSections(p, ops[..|ops| - 1]), ops[|ops| - 1]).0
  }

  /**
   Under any interleaving of the locked sections, hot and warm stay disjoint and within capacity, and at
   every section the only keys that leave are those removed and those reported as evicted to COLD.
   */
  lemma {:induction false} AnyInterleaving<V(!new)>(hotMax: nat, warmMax: nat, ops: seq<Section<V>>)
    ensures var p := AfterSections(Slru(hotMax, warmMax, [], []), ops);
            Sound(p) && forall op, x :: SectionEffect(p, op, x)
    decreases |ops|
  {
    var start := Slru(hotMax, warmMax, [], []);
    if ops != [] {
      AnyInterleaving(hotMax, warmMax, ops[..|ops| - 1]);
      SectionKeeps(AfterSections(start, ops[..|ops| - 1]), ops[|ops| - 1]);
    }
    forall op: Section<V>, x ensures SectionEffect(AfterSections(start, ops), op, x) {
      SectionKeeps(AfterSections(start, ops), op);
    }
  }
}
