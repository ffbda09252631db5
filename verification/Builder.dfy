/** The fluent workflow builder (src/orchestra/core/graph.py). */
module Builder {
  import opened Wrappers
  import opened WorkflowState
  import opened Edges
  import opened Engine

  const START: string := "__start__"

  datatype BuildError =
    | ReservedId(id: string)
    | DuplicateId(id: string)
    | UnjoinedParallel
    | JoinWithoutParallel
    | NoNodes
    | NoEntry
    | UnknownEntry(id: string)
    | UnknownSource(id: string)
    | UnknownTarget(id: string)

  /** The fields of a builder. */
  datatype Blueprint = Blueprint(
    nodes: map<string, Node>,
    edges: seq<Edge>,
    entry: Option<string>,
    last: Option<string>,
    parallelNodes: Option<seq<string>>)

  const EMPTY := Blueprint(map[], [], None, None, None)

  /** A builder call: the fields as it leaves them, and the error it raises, if any. */
  datatype Built = Built(b: Blueprint, error: Option<BuildError>)

  function NodeAdded(b: Blueprint, id: string, node: Node): Built {
    if id == START then Built(b, Some(ReservedId(id)))
    else if id in b.nodes then Built(b, Some(DuplicateId(id)))
    else
      var entry := if b.entry.None? then Some(id) else b.entry;
      Built(b.(nodes := b.nodes[id := node], entry := entry), None)
  }

  /** The edge from the last node, if there is one. */
  function Connect(b: Blueprint, id: string): Blueprint {
    if b.last.Some? then b.(edges := b.edges + [Direct(b.last.value, At(id))]) else b
  }

  function ThenAdded(b: Blueprint, id: string, node: Node): Built {
    var r := NodeAdded(b, id, node);
    if r.error.Some? then r else Built(Connect(r.b, id).(last := Some(id)), None)
  }

  function BranchId(b: Blueprint, id: string, i: nat): string {
    if id in b.nodes then id + "_" + Decimal(i) else id
  }

  /** The loop of parallel() that adds its nodes; also the ids it gives them. */
  function BranchesAdded(b: Blueprint, branches: seq<(string, Node)>): (Built, seq<string>) {
    if branches == [] then (Built(b, None), []) else
    var i := |branches| - 1;
    var (r, ids) := BranchesAdded(b, branches[..i]);
    if r.error.Some? then (r, ids) else
    var id := BranchId(r.b, branches[i].0, i);
    var added := NodeAdded(r.b, id, branches[i].1);
    if added.error.Some? then (added, ids) else (added, ids + [id])
  }

  function FanAdded(b: Blueprint, branches: seq<(string, Node)>): Built {
    var (r, ids) := BranchesAdded(b, branches);
    if r.error.Some? then r
    else if r.b.parallelNodes.Some? then Built(r.b, Some(UnjoinedParallel))
    else
      var edges := if r.b.last.Some? then r.b.edges + [Parallel(r.b.last.value, Ats(ids), None)] else r.b.edges;
      Built(r.b.(edges := edges, parallelNodes := Some(ids), last := None), None)
  }

  predicate OpenFanOut(edge: Edge, targets: seq<string>) {
    edge.Parallel? && edge.targets == Ats(targets) && edge.joinNode.None?
  }

  /** The first open fan-out over these targets gets its join node. */
  function CloseFanOut(edges: seq<Edge>, targets: seq<string>, id: string): seq<Edge> {
    if edges == [] then []
    else if OpenFanOut(edges[0], targets) then [edges[0].(joinNode := Some(At(id)))] + edges[1..]
    else [edges[0]] + CloseFanOut(edges[1..], targets, id)
  }

  lemma {:induction false} FirstOpenCloses(edges: seq<Edge>, targets: seq<string>, id: string, i: nat)
    requires i <= |edges| && forall j :: 0 <= j < i ==> !OpenFanOut(edges[j], targets)
    requires i < |edges| ==> OpenFanOut(edges[i], targets)
    ensures CloseFanOut(edges, targets, id) ==
            if i < |edges| then edges[i := edges[i].(joinNode := Some(At(id)))] else edges
  {
    if i > 0 {
      FirstOpenCloses(edges[1..], targets, id, i - 1);
    }
  }

  function Joined(b: Blueprint, id: string, node: Node): Built {
    if b.parallelNodes.None? then Built(b, Some(JoinWithoutParallel)) else
    var r := NodeAdded(b, id, node);
    if r.error.Some? then r else
    var edges := CloseFanOut(r.b.edges, b.parallelNodes.value, id);
    Built(r.b.(edges := edges, parallelNodes := None, last := Some(id)), None)
  }

  /** The routing function of a loop node; its counter lives in the run's own counters. */
  function LoopRoute(id: string, condition: State -> bool, maxIterations: int): Condition {
    (s: State, counters: Counters) =>
      var loopId := "__loop_" + id;
      var count := (if loopId in counters then counters[loopId] else 0) + 1;
      if count >= maxIterations then Routed(Ok(EndValue), counters - {loopId})
      else if condition(s) then Routed(Ok(StrValue(id)), counters[loopId := count])
      else Routed(Ok(EndValue), counters - {loopId})
  }

  function LoopAdded(b: Blueprint, id: string, node: Node, condition: State -> bool, maxIterations: int): Built {
    var r := if id in b.nodes then Built(b, None) else NodeAdded(b, id, node);
    if r.error.Some? then r else
    var c := if r.b.last == Some(id) then r.b else Connect(r.b, id);
    var edge := Conditional(id, LoopRoute(id, condition, maxIterations), None);
    Built(c.(edges := c.edges + [edge], last := Some(id)), None)
  }

  // ---- compile ----

  predicate KnownTarget(nodes: map<string, Node>, t: Target) {
    t.At? ==> t.id in nodes
  }

  function EdgeError(nodes: map<string, Node>, edge: Edge): Option<BuildError> {
    if edge.source !in nodes then Some(UnknownSource(edge.source)) else
    match edge
    case Direct(_, target) => if KnownTarget(nodes, target) then None else Some(UnknownTarget(target.id))
    case Conditional(_, _, pathMap) =>
      if pathMap.Some? && exists k :: k in pathMap.value && !KnownTarget(nodes, pathMap.value[k])
      then Some(UnknownTarget("")) else None
    case Parallel(_, targets, _) => UnknownAmong(nodes, targets)
  }

  /** END counts as a valid target of a fan-out too. */
  function UnknownAmong(nodes: map<string, Node>, targets: seq<Target>): Option<BuildError> {
    if targets == [] then None
    else if !KnownTarget(nodes, targets[0]) then Some(UnknownTarget(targets[0].id))
    else UnknownAmong(nodes, targets[1..])
  }

  function FirstEdgeError(nodes: map<string, Node>, edges: seq<Edge>): Option<BuildError> {
    if edges == [] then None else
    var e := EdgeError(nodes, edges[0]);
    if e.Some? then e else FirstEdgeError(nodes, edges[1..])
  }

  function Validate(b: Blueprint): Option<BuildError> {
    if b.nodes == map[] then Some(NoNodes)
    else if b.entry.None? || b.entry.value == "" then Some(NoEntry)
    else if b.entry.value !in b.nodes then Some(UnknownEntry(b.entry.value))
    else FirstEdgeError(b.nodes, b.edges)
  }

  /** compile() also closes the last node with an edge to END. */
  function Closed(b: Blueprint): Blueprint {
    if b.last.Some? && OutEdges(b.edges, b.last.value) == []
    then b.(edges := b.edges + [Direct(b.last.value, End)]) else b
  }

  function Compiled(b: Blueprint, schema: Schema, maxTurns: int): Result<Graph, BuildError> {
    match Validate(b)
    case Some(e) => Err(e)
    case None => Ok(Graph(schema, b.nodes, Closed(b).edges, b.entry.value, maxTurns))
  }

  // ---- The builder object ----

  class WorkflowGraph {
    var nodes: map<string, Node>
    var edges: seq<Edge>
    var entryPoint: Option<string>
    var lastNode: Option<string>
    var parallelNodes: Option<seq<string>>

    constructor ()
      ensures Fields() == EMPTY
    {
      nodes, edges, entryPoint, lastNode, parallelNodes := map[], [], None, None, None;
    }

    function Fields(): Blueprint
      reads this
    {
      Blueprint(nodes, edges, entryPoint, lastNode, parallelNodes)
    }

    method AddNode(id: string, node: Node) returns (error: Option<BuildError>)
      modifies `nodes, `entryPoint
      ensures Built(Fields(), error) == NodeAdded(old(Fields()), id, node)
    {
      if id == START {
        return Some(ReservedId(id));
      }
      if id in nodes {
        return Some(DuplicateId(id));
      }
      nodes := nodes[id := node];
      if entryPoint.None? {
        entryPoint := Some(id);
      }
      return None;
    }

    method AddEdge(source: string, target: Target)
      modifies `edges
      ensures edges == old(edges) + [Direct(source, target)]
    {
      edges := edges + [Direct(source, target)];
    }

    method Then(id: string, node: Node) returns (error: Option<BuildError>)
      modifies this
      ensures Built(Fields(), error) == ThenAdded(old(Fields()), id, node)
    {
      error := AddNode(id, node);
      if error.Some? {
        return;
      }
      if lastNode.Some? {
        AddEdge(lastNode.value, At(id));
      }
      lastNode := Some(id);
    }

    method Parallel(branches: seq<(string, Node)>) returns (error: Option<BuildError>)
      modifies this
      ensures Built(Fields(), error) == FanAdded(old(Fields()), branches)
    {
      var ids := [];
      ghost var start := Fields();
      for i := 0 to |branches|
        invariant BranchesAdded(start, branches[..i]) == (Built(Fields(), None), ids)
        invariant parallelNodes == start.parallelNodes && lastNode == start.last && edges == start.edges
      {
        assert branches[..i + 1][..i] == branches[..i];
        var id := branches[i].0;
        if id in nodes {
          id := id + "_" + Decimal(i);
        }
        error := AddNode(id, branches[i].1);
        if error.Some? {
          BranchErrorSticks(start, branches, i + 1);
          return;
        }
        ids := ids + [id];
      }
      assert branches[..|branches|] == branches;
      if parallelNodes.Some? {
        return Some(UnjoinedParallel);
      }
      if lastNode.Some? {
        edges := edges + [Edge.Parallel(lastNode.value, Ats(ids), None)];
      }
      parallelNodes, lastNode := Some(ids), None;
      return None;
    }

    method Join(id: string, node: Node) returns (error: Option<BuildError>)
      modifies this
      ensures Built(Fields(), error) == Joined(old(Fields()), id, node)
    {
      if parallelNodes.None? {
        return Some(JoinWithoutParallel);
      }
      error := AddNode(id, node);
      if error.Some? {
        return;
      }
      SetJoinNode(parallelNodes.value, id);
      parallelNodes, lastNode := None, Some(id);
    }

    method SetJoinNode(targets: seq<string>, id: string)
      modifies `edges
      ensures edges == CloseFanOut(old(edges), targets, id)
    {
      for i := 0 to |edges|
        invariant edges == old(edges)
        invariant forall j :: 0 <= j < i ==> !OpenFanOut(edges[j], targets)
      {
        if OpenFanOut(edges[i], targets) {
          FirstOpenCloses(edges, targets, id, i);
          edges := edges[i := edges[i].(joinNode := Some(At(id)))];
          return;
        }
      }
      FirstOpenCloses(edges, targets, id, |edges|);
    }

    method Loop(
      id: string, node: Node, condition: State -> bool, maxIterations: int) returns (error: Option<BuildError>)
      modifies this
      ensures Built(Fields(), error) == LoopAdded(old(Fields()), id, node, condition, maxIterations)
    {
      error := None;
      if id !in nodes {
        error := AddNode(id, node);
        if error.Some? {
          return;
        }
      }
      if lastNode.Some? && lastNode != Some(id) {
        AddEdge(lastNode.value, At(id));
      }
      edges := edges + [Conditional(id, LoopRoute(id, condition, maxIterations), None)];
      lastNode := Some(id);
    }

    method Compile(schema: Schema, maxTurns: int) returns (r: Result<Graph, BuildError>)
      modifies `edges
      ensures r == Compiled(old(Fields()), schema, maxTurns)
      ensures Fields() == if r.Ok? then Closed(old(Fields())) else old(Fields())
    {
      var invalid := Validate(Fields());
      if invalid.Some? {
        return Err(invalid.value);
      }
      if lastNode.Some? && OutEdges(edges, lastNode.value) == [] {
        AddEdge(lastNode.value, End);
      }
      return Ok(Graph(schema, nodes, edges, entryPoint.value, maxTurns));
    }
  }

  lemma {:induction false} BranchErrorSticks(b: Blueprint, branches: seq<(string, Node)>, i: nat)
    requires i <= |branches| && BranchesAdded(b, branches[..i]).0.error.Some?
    ensures BranchesAdded(b, branches).0 == BranchesAdded(b, branches[..i]).0
    decreases |branches|
  {
    if i == |branches| {
      assert branches[..i] == branches;
    } else {
      var init := branches[..|branches| - 1];
      assert init[..i] == branches[..i];
      BranchErrorSticks(b, init, i);
    }
  }
}
