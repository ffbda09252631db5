/** Typed workflow state, its reducers and the fan-in of parallel updates (src/orchestra/core/state.py). */
module WorkflowState {
  import opened Wrappers

  // ---- Values and schemas ----

  datatype Value =
    | Num(n: int)
    | Text(s: string)
    | ListOf(items: seq<Value>)
    | SetOf(elems: set<Value>)
    | DictOf(entries: map<string, Value>)

  datatype Kind = NumKind | TextKind | ListKind | SetKind | DictKind

  function KindOf(v: Value): Kind {
    match v
    case Num(_) => NumKind
    case Text(_) => TextKind
    case ListOf(_) => ListKind
    case SetOf(_) => SetKind
    case DictOf(_) => DictKind
  }

  datatype Reducer =
    | MergeList | MergeDict | SumNumbers | LastWriteWins | MergeSet
    | ConcatStr | KeepFirst | MaxValue | MinValue

  /** A declared field: the type of its values and the reducer it is annotated with, if any. */
  datatype Field = Field(kind: Kind, reducer: Option<Reducer>)

  type Schema = map<string, Field>

  type State = map<string, Value>

  /** A partial update: the items of a dict in insertion order. */
  type Update = seq<(string, Value)>

  datatype StateError = UnknownField(key: string) | ReducerFailed(key: string) | ValidationFailed

  /** What the model class accepts: every declared field, each with a value of its type. */
  predicate WellTyped(schema: Schema, s: State) {
    s.Keys == schema.Keys && forall k :: k in s ==> KindOf(s[k]) == schema[k].kind
  }

  // ---- Reducers ----

  /** A reducer call; None when the operands are not of the type the reducer is written for. */
  function Reduce(r: Reducer, existing: Value, new_: Value): Option<Value> {
    match (r, existing, new_)
    case (MergeList, ListOf(a), ListOf(b)) => Some(ListOf(a + b))
    case (MergeDict, DictOf(a), DictOf(b)) => Some(DictOf(a + b))
    case (SumNumbers, Num(a), Num(b)) => Some(Num(a + b))
    case (LastWriteWins, _, b) => Some(b)
    case (MergeSet, SetOf(a), SetOf(b)) => Some(SetOf(a + b))
    case (ConcatStr, Text(a), Text(b)) => Some(Text(a + b))
    case (KeepFirst, a, _) => Some(a)
    case (MaxValue, Num(a), Num(b)) => Some(Num(if b > a then b else a))
    case (MinValue, Num(a), Num(b)) => Some(Num(if b < a then b else a))
    case _ => None
  }

  function ReducerOf(schema: Schema, key: string): Option<Reducer> {
    if key in schema then schema[key].reducer else None
  }

  /** How one field combines: its reducer, or last write wins. */
  function Combine(r: Option<Reducer>, existing: Value, new_: Value): Option<Value> {
    match r
    case None => Some(new_)
    case Some(reducer) => Reduce(reducer, existing, new_)
  }

  // ---- apply_state_update and merge_parallel_updates ----

  /** The dict built by the loop of apply_state_update over the items of the update. */
  function FillData(schema: Schema, current: State, update: Update): (r: Result<State, StateError>)
    ensures r.Ok? ==> r.value.Keys == current.Keys
  {
    if update == [] then Ok(current) else
    var last := |update| - 1;
    match FillData(schema, current, update[..last])
    case Err(e) => Err(e)
    case Ok(data) =>
      var (key, value) := update[last];
      if key !in current then Err(UnknownField(key))
      else
        match Combine(ReducerOf(schema, key), current[key], value)
        case None => Err(ReducerFailed(key))
        case Some(v) => Ok(data[key := v])
  }

  function ApplyUpdate(schema: Schema, current: State, update: Update): Result<State, StateError> {
    match FillData(schema, current, update)
    case Err(e) => Err(e)
    case Ok(data) => if WellTyped(schema, data) then Ok(data) else Err(ValidationFailed)
  }

  method ApplyStateUpdate(schema: Schema, current: State, update: Update)
    returns (r: Result<State, StateError>)
    ensures r == ApplyUpdate(schema, current, update)
  {
    var newData := current;
    for i := 0 to |update|
      invariant FillData(schema, current, update[..i]) == Ok(newData)
    {
      assert update[..i + 1][..i] == update[..i];
      var (key, value) := update[i];
      if key !in current {
        FailureSticks(schema, current, update, i + 1);
        return Err(UnknownField(key));
      }
      match Combine(ReducerOf(schema, key), current[key], value) {
        case None =>
          FailureSticks(schema, current, update, i + 1);
          return Err(ReducerFailed(key));
        case Some(v) => newData := newData[key := v];
      }
    }
    assert update[..|update|] == update;
    return if WellTyped(schema, newData) then Ok(newData) else Err(ValidationFailed);
  }

  lemma {:induction false} FailureSticks(schema: Schema, current: State, update: Update, i: nat)
    requires i <= |update| && FillData(schema, current, update[..i]).Err?
    ensures FillData(schema, current, update) == FillData(schema, current, update[..i])
    decreases |update|
  {
    if i == |update| {
      assert update[..i] == update;
    } else {
      var init := update[..|update| - 1];
      assert init[..i] == update[..i];
      FailureSticks(schema, current, init, i);
    }
  }

  /** Fold of the updates, left to right. */
  function Merge(schema: Schema, s: State, updates: seq<Update>): Result<State, StateError> {
    if updates == [] then Ok(s) else
    match Merge(schema, s, updates[..|updates| - 1])
    case Err(e) => Err(e)
    case Ok(t) => ApplyUpdate(schema, t, updates[|updates| - 1])
  }

  method MergeParallelUpdates(schema: Schema, s: State, updates: seq<Update>)
    returns (r: Result<State, StateError>)
    ensures r == Merge(schema, s, updates)
  {
    var result := s;
    for i := 0 to |updates|
      invariant Merge(schema, s, updates[..i]) == Ok(result)
    {
      assert updates[..i + 1][..i] == updates[..i];
      var step := ApplyStateUpdate(schema, result, updates[i]);
      if step.Err? {
        MergeFailureSticks(schema, s, updates, i + 1);
        return step;
      }
      result := step.value;
    }
    assert updates[..|updates|] == updates;
    return Ok(result);
  }

  lemma {:induction false} MergeFailureSticks(schema: Schema, s: State, updates: seq<Update>, i: nat)
    requires i <= |updates| && Merge(schema, s, updates[..i]).Err?
    ensures Merge(schema, s, updates) == Merge(schema, s, updates[..i])
    decreases |updates|
  {
    if i == |updates| {
      assert updates[..i] == updates;
    } else {
      var init := updates[..|updates| - 1];
      assert init[..i] == updates[..i];
      MergeFailureSticks(schema, s, init, i);
    }
  }
}
