/** Edge types and routing (src/orchestra/core/edges.py). */
module Edges {
  import opened Wrappers
  import opened WorkflowState

  /** Loop counters of one run, by loop id. */
  type Counters = map<string, int>

  /** What a routing function may return; Other stands for any other object, by its printed form. */
  datatype RouteValue =
    | EndValue | StrValue(s: string) | BoolValue(b: bool) | NoneValue | IntValue(n: int) | Other(text: string)

  /** The END sentinel, or anything else, which the engine looks up by its string form. */
  datatype Target = End | At(id: string)

  function Ats(ids: seq<string>): seq<Target> {
    seq(|ids|, i requires 0 <= i < |ids| => At(ids[i]))
  }

  /** One call of a routing function: its value or exception, and the counters as it leaves them. */
  datatype Routed = Routed(value: Result<RouteValue, string>, counters: Counters)

  type Condition = (State, Counters) -> Routed

  datatype Edge =
    | Direct(source: string, target: Target)
    | Conditional(source: string, condition: Condition, pathMap: Option<map<string, Target>>)
    | Parallel(source: string, targets: seq<Target>, joinNode: Option<Target>)

  datatype RouteError = NotInPathMap(key: string) | ConditionRaised(message: string)

  function Digits(n: nat): string {
    if n < 10 then ["0123456789"[n]] else Digits(n / 10) + ["0123456789"[n % 10]]
  }

  function Decimal(n: int): string {
    if n < 0 then "-" + Digits(-n) else Digits(n)
  }

  /** str(value) for a value used as the current node id. */
  function AsTarget(v: RouteValue): Target {
    match v
    case EndValue => End
    case StrValue(s) => At(s)
    case BoolValue(b) => At(if b then "True" else "False")
    case NoneValue => At("None")
    case IntValue(n) => At(Decimal(n))
    case Other(text) => At(text)
  }

  function CoercePathKey(v: RouteValue): Option<string> {
    match v
    case StrValue(s) => Some(s)
    case BoolValue(b) => Some(if b then "true" else "false")
    case NoneValue => Some("null")
    case IntValue(n) => Some(Decimal(n))
    case EndValue => None
    case Other(_) => None
  }

  /** ConditionalEdge.resolve. */
  function ResolveEdge(edge: Edge, s: State, counters: Counters): (Result<Target, RouteError>, Counters)
    requires edge.Conditional?
  {
    var routed := edge.condition(s, counters);
    match routed.value
    case Err(message) => (Err(ConditionRaised(message)), routed.counters)
    case Ok(v) =>
      if edge.pathMap.None? then (Ok(AsTarget(v)), routed.counters) else
      match CoercePathKey(v)
      case None => (Ok(AsTarget(v)), routed.counters)
      case Some(key) =>
        if key in edge.pathMap.value then (Ok(edge.pathMap.value[key]), routed.counters)
        else (Err(NotInPathMap(key)), routed.counters)
  }
}
