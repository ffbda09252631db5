/**
 What parallel fan-in means: merging is a fold per field, and for the reducers that
 promise it the order of the branches does not matter.
 */
module FanIn {
  import opened Wrappers
  import opened WorkflowState

  // ---- Folds that may fail ----

  function Fold<A, B>(op: (A, B) -> Option<A>, a: A, xs: seq<B>): Option<A> {
    if xs == [] then Some(a) else
    match Fold(op, a, xs[..|xs| - 1])
    case None => None
    case Some(b) => op(b, xs[|xs| - 1])
  }

  function Twice<A, B>(op: (A, B) -> Option<A>, a: A, x: B, y: B): Option<A> {
    match op(a, x)
    case None => None
    case Some(b) => op(b, y)
  }

  ghost predicate Swaps<A(!new), B(!new)>(op: (A, B) -> Option<A>) {
    forall a, x, y :: Twice(op, a, x, y) == Twice(op, a, y, x)
  }

  /** An element may be moved to the end of the fold. */
  lemma {:induction false} MoveToEnd<A(!new), B(!new)>(op: (A, B) -> Option<A>, a: A, front: seq<B>, x: B, back: seq<B>)
    requires Swaps(op)
    ensures Fold(op, a, front + [x] + back) == Fold(op, a, front + back + [x])
    decreases |back|
  {
    if back == [] {
      assert front + [x] + back == front + back + [x];
    } else {
      var init, last := back[..|back| - 1], back[|back| - 1];
      var moved := front + [x] + back;
      assert moved[..|moved| - 1] == front + [x] + init;
      MoveToEnd(op, a, front, x, init);
      var target := front + back + [x];
      assert target[..|target| - 1] == front + back;
      assert (front + back)[..|front + back| - 1] == front + init;
      assert (front + init + [x])[..|front + init|] == front + init;
      if Fold(op, a, front + init).Some? {
        var b := Fold(op, a, front + init).value;
        assert Twice(op, b, x, last) == Twice(op, b, last, x);
      }
    }
  }

  lemma SplitAround<B>(xs: seq<B>, ys: seq<B>) returns (front: seq<B>, back: seq<B>)
    requires xs != [] && multiset(xs) == multiset(ys)
    ensures ys == front + [xs[|xs| - 1]] + back
    ensures multiset(xs[..|xs| - 1]) == multiset(front + back)
  {
    var init, last := xs[..|xs| - 1], xs[|xs| - 1];
    assert xs == init + [last];
    assert last in multiset(ys);
    var i :| 0 <= i < |ys| && ys[i] == last;
    front, back := ys[..i], ys[i + 1..];
    assert ys == front + [last] + back;
    calc {
      multiset(init);
      multiset(xs) - multiset{last};
      multiset(front + [last] + back) - multiset{last};
      multiset(front) + multiset(back);
      multiset(front + back);
    }
  }

  /** A fold whose steps swap depends only on the multiset of its elements. */
  lemma {:induction false} FoldPermutes<A(!new), B(!new)>(op: (A, B) -> Option<A>, a: A, xs: seq<B>, ys: seq<B>)
    requires Swaps(op) && multiset(xs) == multiset(ys)
    ensures Fold(op, a, xs) == Fold(op, a, ys)
    decreases |xs|
  {
    if xs == [] {
      assert multiset(ys) == multiset{};
      assert ys == [];
    } else {
      var front, back := SplitAround(xs, ys);
      var last := xs[|xs| - 1];
      FoldPermutes(op, a, xs[..|xs| - 1], front + back);
      MoveToEnd(op, a, front, last, back);
      FoldSnoc(op, a, front + back, last);
    }
  }

  lemma FoldSnoc<A(!new), B(!new)>(op: (A, B) -> Option<A>, a: A, xs: seq<B>, x: B)
    ensures Fold(op, a, xs + [x]) ==
            match Fold(op, a, xs) case None => None case Some(b) => op(b, x)
  {
    assert (xs + [x])[..|xs|] == xs;
  }

  // ---- One update, field by field ----

  /** The value the update gives to a key. */
  function Lookup(update: Update, key: string): Option<Value> {
    if update == [] then None
    else if update[|update| - 1].0 == key then Some(update[|update| - 1].1)
    else Lookup(update[..|update| - 1], key)
  }

  lemma {:induction false} FillByKey(schema: Schema, s: State, update: Update, key: string)
    requires FillData(schema, s, update).Ok? && key in s
    ensures var t := FillData(schema, s, update).value;
            match Lookup(update, key)
            case None => t[key] == s[key]
            case Some(v) => Combine(ReducerOf(schema, key), s[key], v) == Some(t[key])
    decreases |update|
  {
    if update != [] {
      FillByKey(schema, s, update[..|update| - 1], key);
    }
  }

  /** Same fields, same types: all that acceptance of an update depends on. */
  predicate SameTypes(s: State, t: State) {
    s.Keys == t.Keys && forall k :: k in s ==> KindOf(s[k]) == KindOf(t[k])
  }

  lemma CombineDependsOnTypes(r: Option<Reducer>, existing: Value, other: Value, new_: Value)
    requires KindOf(existing) == KindOf(other)
    ensures Combine(r, existing, new_).Some? == Combine(r, other, new_).Some?
    ensures Combine(r, existing, new_).Some? ==>
              KindOf(Combine(r, existing, new_).value) == KindOf(Combine(r, other, new_).value)
  {
  }

  lemma {:induction false} FillDependsOnTypes(schema: Schema, s: State, t: State, update: Update)
    requires SameTypes(s, t)
    ensures FillData(schema, s, update).Ok? == FillData(schema, t, update).Ok?
    ensures FillData(schema, s, update).Ok? ==>
              SameTypes(FillData(schema, s, update).value, FillData(schema, t, update).value)
    decreases |update|
  {
    if update != [] {
      FillDependsOnTypes(schema, s, t, update[..|update| - 1]);
      var (key, value) := update[|update| - 1];
      if key in s {
        CombineDependsOnTypes(ReducerOf(schema, key), s[key], t[key], value);
      }
    }
  }

  /** A parallel merge succeeds exactly when each branch's update is acceptable on the pre-state. */
  lemma {:induction false} MergeSucceedsIff(schema: Schema, s: State, updates: seq<Update>)
    requires WellTyped(schema, s)
    ensures Merge(schema, s, updates).Ok? <==>
            forall u :: u in updates ==> ApplyUpdate(schema, s, u).Ok?
    ensures Merge(schema, s, updates).Ok? ==> WellTyped(schema, Merge(schema, s, updates).value)
    decreases |updates|
  {
    if updates != [] {
      var init, last := updates[..|updates| - 1], updates[|updates| - 1];
      assert updates == init + [last];
      MergeSucceedsIff(schema, s, init);
      if Merge(schema, s, init).Ok? {
        FillDependsOnTypes(schema, s, Merge(schema, s, init).value, last);
      }
    }
  }

  // ---- Many updates, field by field ----

  /** The values the updates give to a key, in the order of the updates. */
  function FieldValues(updates: seq<Update>, key: string): seq<Value> {
    if updates == [] then [] else
    FieldValues(updates[..|updates| - 1], key) +
    match Lookup(updates[|updates| - 1], key)
    case None => []
    case Some(v) => [v]
  }

  function Combiner(r: Option<Reducer>): (Value, Value) -> Option<Value> {
    (existing, new_) => Combine(r, existing, new_)
  }

  /** Merging computes, for each field, the fold of that field's values alone. */
  lemma {:induction false} MergeByKey(schema: Schema, s: State, updates: seq<Update>, key: string)
    requires Merge(schema, s, updates).Ok?
    requires key in s
    ensures var t := Merge(schema, s, updates).value;
            t.Keys == s.Keys &&
            Fold(Combiner(ReducerOf(schema, key)), s[key], FieldValues(updates, key)) == Some(t[key])
    decreases |updates|
  {
    if updates != [] {
      var init, last := updates[..|updates| - 1], updates[|updates| - 1];
      MergeByKey(schema, s, init, key);
      var t := Merge(schema, s, init).value;
      FillByKey(schema, t, last, key);
      var values := FieldValues(updates, key);
      match Lookup(last, key) {
        case None => assert values == FieldValues(init, key);
        case Some(v) => assert values[..|values| - 1] == FieldValues(init, key);
      }
    }
  }

  // ---- Order of the branches ----

  predicate OrderFree(r: Reducer) {
    r in {SumNumbers, MaxValue, MinValue, MergeSet, KeepFirst}
  }

  /** The order of two branches never matters exactly for the order-free reducers. */
  lemma OrderFreeExactly(r: Reducer)
    ensures Swaps(Combiner(Some(r))) <==> OrderFree(r)
  {
    if OrderFree(r) {
      OrderFreeSwaps(r);
    } else {
      var (a, x, y) := OrderWitness(r);
      assert Twice(Combiner(Some(r)), a, x, y) != Twice(Combiner(Some(r)), a, y, x);
    }
  }

  lemma OrderFreeSwaps(r: Reducer)
    requires OrderFree(r)
    ensures Swaps(Combiner(Some(r)))
  {
    var op := Combiner(Some(r));
    forall a, x, y ensures Twice(op, a, x, y) == Twice(op, a, y, x) {
      if r.MergeSet? && a.SetOf? && x.SetOf? && y.SetOf? {
        assert a.elems + x.elems + y.elems == a.elems + y.elems + x.elems;
      }
    }
  }

  /** Operands on which a reducer that is not order-free tells the two orders apart. */
  function OrderWitness(r: Reducer): (w: (Value, Value, Value))
    requires !OrderFree(r)
    ensures Twice(Combiner(Some(r)), w.0, w.1, w.2) != Twice(Combiner(Some(r)), w.0, w.2, w.1)
  {
    match r
    case MergeList =>
      var empty: seq<Value> := [];
      assert (empty + [Num(1)] + [Num(2)])[0] != (empty + [Num(2)] + [Num(1)])[0];
      (ListOf(empty), ListOf([Num(1)]), ListOf([Num(2)]))
    case ConcatStr =>
      assert ("" + "a" + "b")[0] != ("" + "b" + "a")[0];
      (Text(""), Text("a"), Text("b"))
    case MergeDict =>
      var one, two: map<string, Value> := map["k" := Num(1)], map["k" := Num(2)];
      assert (one + two)["k"] != (two + one)["k"];
      assert map[] + one + two == one + two && map[] + two + one == two + one;
      (DictOf(map[]), DictOf(one), DictOf(two))
    case _ => (Num(0), Num(1), Num(2))
  }

  /** Appending to a list, seen through the multiset of its items. */
  function AppendBag(bag: multiset<Value>, v: Value): Option<multiset<Value>> {
    if v.ListOf? then Some(bag + multiset(v.items)) else None
  }

  lemma {:induction false} ListFoldBag(v: Value, values: seq<Value>)
    requires v.ListOf? && Fold(Combiner(Some(MergeList)), v, values).Some?
    ensures var t := Fold(Combiner(Some(MergeList)), v, values).value;
            t.ListOf? && Fold(AppendBag, multiset(v.items), values) == Some(multiset(t.items))
    decreases |values|
  {
    if values != [] {
      ListFoldBag(v, values[..|values| - 1]);
    }
  }

  lemma ListFoldPermutes(v: Value, xs: seq<Value>, ys: seq<Value>)
    requires v.ListOf? && multiset(xs) == multiset(ys)
    requires Fold(Combiner(Some(MergeList)), v, xs).Some? && Fold(Combiner(Some(MergeList)), v, ys).Some?
    ensures var t := Fold(Combiner(Some(MergeList)), v, xs).value;
            var u := Fold(Combiner(Some(MergeList)), v, ys).value;
            t.ListOf? && u.ListOf? && multiset(t.items) == multiset(u.items)
  {
    ListFoldBag(v, xs);
    ListFoldBag(v, ys);
    assert Swaps(AppendBag) by {
      forall a, x, y ensures Twice(AppendBag, a, x, y) == Twice(AppendBag, a, y, x) {
        if x.ListOf? && y.ListOf? {
          assert a + multiset(x.items) + multiset(y.items) == a + multiset(y.items) + multiset(x.items);
        }
      }
    }
    FoldPermutes(AppendBag, multiset(v.items), xs, ys);
  }

  function CollectBag(key: string): (multiset<Value>, Update) -> Option<multiset<Value>> {
    (bag: multiset<Value>, u: Update) =>
      Some(match Lookup(u, key) case None => bag case Some(v) => bag + multiset{v})
  }

  lemma {:induction false} FieldValuesBag(updates: seq<Update>, key: string)
    ensures Fold(CollectBag(key), multiset{}, updates) == Some(multiset(FieldValues(updates, key)))
    decreases |updates|
  {
    if updates != [] {
      var init, last := updates[..|updates| - 1], updates[|updates| - 1];
      FieldValuesBag(init, key);
      if Lookup(last, key).Some? {
        assert multiset(FieldValues(updates, key)) ==
               multiset(FieldValues(init, key)) + multiset{Lookup(last, key).value};
      } else {
        assert FieldValues(updates, key) == FieldValues(init, key);
      }
    }
  }

  lemma {:induction false} FieldValuesPermute(updates: seq<Update>, shuffled: seq<Update>, key: string)
    requires multiset(updates) == multiset(shuffled)
    ensures multiset(FieldValues(updates, key)) == multiset(FieldValues(shuffled, key))
  {
    FieldValuesBag(updates, key);
    FieldValuesBag(shuffled, key);
    var op := CollectBag(key);
    forall a, x, y ensures Twice(op, a, x, y) == Twice(op, a, y, x) {
      if Lookup(x, key).Some? && Lookup(y, key).Some? {
        var v, w := Lookup(x, key).value, Lookup(y, key).value;
        assert a + multiset{v} + multiset{w} == a + multiset{w} + multiset{v};
      }
    }
    FoldPermutes(op, multiset{}, updates, shuffled);
  }

  /** What two merges of the same branches in different orders agree on, for one field. */
  ghost predicate SameUpToOrder(field: Field, v: Value, w: Value) {
    && (field.reducer.Some? && OrderFree(field.reducer.value) ==> v == w)
    && (field.reducer == Some(MergeList) && field.kind == ListKind ==>
          v.ListOf? && w.ListOf? && multiset(v.items) == multiset(w.items))
  }

  lemma {:induction false} FieldOrderInsensitive(
    schema: Schema, s: State, updates: seq<Update>, shuffled: seq<Update>, key: string)
    requires WellTyped(schema, s) && multiset(updates) == multiset(shuffled)
    requires Merge(schema, s, updates).Ok? && Merge(schema, s, shuffled).Ok?
    requires key in s
    ensures key in Merge(schema, s, updates).value && key in Merge(schema, s, shuffled).value
    ensures SameUpToOrder(schema[key], Merge(schema, s, updates).value[key], Merge(schema, s, shuffled).value[key])
  {
    MergeByKey(schema, s, updates, key);
    MergeByKey(schema, s, shuffled, key);
    FieldValuesPermute(updates, shuffled, key);
    var xs, ys := FieldValues(updates, key), FieldValues(shuffled, key);
    var r := schema[key].reducer;
    if r.Some? && OrderFree(r.value) {
      OrderFreeSwaps(r.value);
      FoldPermutes(Combiner(r), s[key], xs, ys);
    } else if r == Some(MergeList) && schema[key].kind == ListKind {
      ListFoldPermutes(s[key], xs, ys);
    }
  }

  /**
   Reordering the branches: the merge fails in one order iff it fails in the other; fields with an
   order-free reducer are equal, list fields are equal as multisets.
   */
  lemma {:induction false} FanInOrderInsensitive(schema: Schema, s: State, updates: seq<Update>, shuffled: seq<Update>)
    requires WellTyped(schema, s) && multiset(updates) == multiset(shuffled)
    ensures Merge(schema, s, updates).Ok? <==> Merge(schema, s, shuffled).Ok?
    ensures Merge(schema, s, updates).Ok? ==>
              var t, t' := Merge(schema, s, updates).value, Merge(schema, s, shuffled).value;
              t.Keys == t'.Keys == s.Keys && forall k :: k in s ==> SameUpToOrder(schema[k], t[k], t'[k])
  {
    forall u ensures u in updates <==> u in shuffled {
      assert u in updates <==> u in multiset(updates);
      assert u in shuffled <==> u in multiset(shuffled);
    }
    MergeSucceedsIff(schema, s, updates);
    MergeSucceedsIff(schema, s, shuffled);
    if Merge(schema, s, updates).Ok? {
      forall k | k in s
        ensures SameUpToOrder(schema[k], Merge(schema, s, updates).value[k], Merge(schema, s, shuffled).value[k])
      {
        FieldOrderInsensitive(schema, s, updates, shuffled, k);
      }
    }
  }

  lemma FoldLastWrite(v: Value, values: seq<Value>)
    requires Fold(Combiner(None), v, values).Some?
    ensures Fold(Combiner(None), v, values) == Some(if values == [] then v else values[|values| - 1])
  {
  }

  /** A field without a reducer takes the value of the last update naming it; an unnamed field is kept. */
  lemma LastWriterWins(schema: Schema, s: State, updates: seq<Update>, key: string)
    requires Merge(schema, s, updates).Ok? && key in s
    requires FieldValues(updates, key) != [] ==> ReducerOf(schema, key).None?
    ensures var t, values := Merge(schema, s, updates).value, FieldValues(updates, key);
            key in t && t[key] == if values == [] then s[key] else values[|values| - 1]
  {
    MergeByKey(schema, s, updates, key);
    var values := FieldValues(updates, key);
    if values != [] {
      FoldLastWrite(s[key], values);
    }
  }
}
