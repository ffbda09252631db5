/** The execution engine (src/orchestra/core/compiled.py). */
module Engine {
  import opened Wrappers
  import opened WorkflowState
  import opened Edges

  // ---- Graphs ----

  /** A node: the foreign work it does, as a function of the state it is handed, and its interrupt flags. */
  datatype Node = Node(body: State -> Result<Update, string>, interruptBefore: bool, interruptAfter: bool)

  datatype Graph = Graph(schema: Schema, nodes: map<string, Node>, edges: seq<Edge>, entry: string, maxTurns: int)

  /** The edges leaving a node, in the order they were added. */
  function OutEdges(edges: seq<Edge>, source: string): seq<Edge> {
    if edges == [] then [] else
    OutEdges(edges[..|edges| - 1], source) +
    if edges[|edges| - 1].source == source then [edges[|edges| - 1]] else []
  }

  // ---- Runs as values ----

  datatype RunError =
    | NodeNotFound(id: string)
    | NodeFailed(id: string, message: string)
    | BadState(stateError: StateError)
    | BadRoute(routeError: RouteError)
    | UnknownBranch(branch: Target)
    | ParallelFailed(messages: seq<string>)
    | MaxIterations(last: string)
    | NoCheckpoint

  datatype Pause = Before | After

  /** A saved interrupt: where to resume, the state, the counters and the order so far. */
  datatype Checkpoint = Checkpoint(node: string, kind: Pause, state: State, counters: Counters, order: seq<string>)

  /** The bookkeeping fields of an execution context. */
  datatype Progress = Progress(turn: nat, order: seq<string>, counters: Counters)

  datatype Config = Config(at: Target, state: State, progress: Progress)

  /** One call of a node's body: which node, on which state. */
  datatype Visit = Visit(node: string, input: State)

  datatype Outcome = Finished(state: State) | Interrupted(checkpoint: Checkpoint) | Failed(error: RunError)

  datatype StepResult =
    | Moved(next: Config, visit: Visit)
    | Stopped(outcome: Outcome, progress: Progress, visits: seq<Visit>)

  datatype RunResult = RunResult(visits: seq<Visit>, outcome: Outcome, progress: Progress)

  // ---- One transition ----

  /** END, which is no node, may stand among the targets of a fan-out. */
  predicate IsNode(g: Graph, t: Target) {
    t.At? && t.id in g.nodes
  }

  /** The updates of the branches, run on copies of the same state. */
  function BranchResults(g: Graph, targets: seq<Target>, s: State): seq<Result<Update, string>>
    requires forall t :: t in targets ==> IsNode(g, t)
  {
    seq(|targets|, i requires 0 <= i < |targets| => assert IsNode(g, targets[i]); g.nodes[targets[i].id].body(s))
  }

  function Updates(results: seq<Result<Update, string>>): seq<Update> {
    if results == [] then [] else
    Updates(results[..|results| - 1]) +
    match results[|results| - 1] case Ok(u) => [u] case Err(_) => []
  }

  function Errors(results: seq<Result<Update, string>>): seq<string> {
    if results == [] then [] else
    Errors(results[..|results| - 1]) +
    match results[|results| - 1] case Ok(_) => [] case Err(e) => [e]
  }

  /** Merging what a gather of the branches returned. */
  function MergeBranches(schema: Schema, s: State, results: seq<Result<Update, string>>): Result<State, RunError> {
    if Errors(results) != [] then Err(ParallelFailed(Errors(results))) else
    match Merge(schema, s, Updates(results))
    case Err(e) => Err(BadState(e))
    case Ok(t) => Ok(t)
  }

  function FirstUnknown(g: Graph, targets: seq<Target>): Option<Target> {
    if targets == [] then None
    else if !IsNode(g, targets[0]) then Some(targets[0])
    else FirstUnknown(g, targets[1..])
  }

  lemma {:induction false} FirstUnknownNone(g: Graph, targets: seq<Target>)
    ensures FirstUnknown(g, targets).None? <==> forall t :: t in targets ==> IsNode(g, t)
  {
    if targets != [] {
      FirstUnknownNone(g, targets[1..]);
      assert targets == [targets[0]] + targets[1..];
    }
  }

  function FanOut(g: Graph, targets: seq<Target>, s: State): Result<State, RunError> {
    match FirstUnknown(g, targets)
    case Some(branch) => Err(UnknownBranch(branch))
    case None =>
      FirstUnknownNone(g, targets);
      MergeBranches(g.schema, s, BranchResults(g, targets, s))
  }

  /** _resolve_next: where to go from a node, the state to go there with, and the counters. */
  function Next(g: Graph, id: string, s: State, counters: Counters): (Result<(Target, State), RunError>, Counters) {
    var out := OutEdges(g.edges, id);
    if out == [] then (Ok((End, s)), counters) else
    match out[0]
    case Direct(_, target) => (Ok((target, s)), counters)
    case Conditional(_, _, _) =>
      var (target, after) := ResolveEdge(out[0], s, counters);
      (match target case Err(e) => Err(BadRoute(e)) case Ok(t) => Ok((t, s)), after)
    case Parallel(_, targets, joinNode) =>
      var to := if joinNode.Some? then joinNode.value else End;
      (match FanOut(g, targets, s) case Err(e) => Err(e) case Ok(t) => Ok((to, t)), counters)
  }

  /** str(next_node_id): the sentinel prints as END. */
  function TargetName(t: Target): string {
    match t case End => "END" case At(id) => id
  }

  function Execute(schema: Schema, id: string, node: Node, s: State): Result<State, RunError> {
    match node.body(s)
    case Err(message) => Err(NodeFailed(id, message))
    case Ok(update) =>
      if update == [] then Ok(s) else
      match ApplyUpdate(schema, s, update)
      case Err(e) => Err(BadState(e))
      case Ok(t) => Ok(t)
  }

  function OrderAfter(node: Node, s: State, id: string, order: seq<string>): seq<string> {
    if node.body(s).Ok? then order + [id] else order
  }

  /** One iteration of the loop body. */
  function Step(g: Graph, c: Config, bypass: bool): StepResult
    requires c.at.At?
  {
    var id, p := c.at.id, c.progress.(turn := c.progress.turn + 1);
    if id !in g.nodes then Stopped(Failed(NodeNotFound(id)), p, []) else
    var node := g.nodes[id];
    if node.interruptBefore && !bypass then
      Stopped(Interrupted(Checkpoint(id, Before, c.state, p.counters, p.order)), p, [])
    else
      var visit, order := Visit(id, c.state), OrderAfter(node, c.state, id, p.order);
      match Execute(g.schema, id, node, c.state)
      case Err(e) => Stopped(Failed(e), p.(order := order), [visit])
      case Ok(s) =>
        var (next, counters) := Next(g, id, s, p.counters);
        var q := p.(order := order, counters := counters);
        match next
        case Err(e) => Stopped(Failed(e), q, [visit])
        case Ok((to, t)) =>
          if node.interruptAfter then
            Stopped(Interrupted(Checkpoint(TargetName(to), After, s, counters, order)), q, [visit])
          else
            Moved(Config(to, t, q), visit)
  }

  /** The whole loop, with the node calls it makes. */
  function Run(g: Graph, c: Config, bypass: bool): RunResult
    decreases g.maxTurns - c.progress.turn
  {
    if c.at.End? then RunResult([], Finished(c.state), c.progress)
    else if c.progress.turn >= g.maxTurns then RunResult([], Failed(MaxIterations(c.at.id)), c.progress)
    else
      match Step(g, c, bypass)
      case Stopped(outcome, progress, visits) => RunResult(visits, outcome, progress)
      case Moved(next, visit) =>
        var rest := Run(g, next, false);
        rest.(visits := [visit] + rest.visits)
  }

  /** The configuration resume() starts from: turns begin again at 0. */
  function Resumed(cp: Checkpoint): Config {
    Config(At(cp.node), cp.state, Progress(0, cp.order, cp.counters))
  }

  /** The checkpoint's state with the caller's edits, validated; keys the schema does not declare are dropped. */
  function Edited(schema: Schema, s: State, edits: State): Result<State, RunError> {
    var data := map k | k in s + edits && k in schema :: (s + edits)[k];
    if WellTyped(schema, data) then Ok(data) else Err(BadState(ValidationFailed))
  }

  // ---- The engine's objects ----

  class ExecutionContext {
    var runId: string
    var turnNumber: nat
    var nodeId: string
    var state: State
    var loopCounters: Counters
    var nodeExecutionOrder: seq<string>

    constructor (runId: string, counters: Counters, order: seq<string>)
      ensures this.runId == runId && Bookkeeping() == Progress(0, order, counters)
    {
      this.runId, turnNumber, nodeId, state := runId, 0, "", map[];
      loopCounters, nodeExecutionOrder := counters, order;
    }

    function Bookkeeping(): Progress
      reads this
    {
      Progress(turnNumber, nodeExecutionOrder, loopCounters)
    }
  }

  /** The part of an event store the engine relies on: the latest checkpoint of each run. */
  class CheckpointStore {
    var latest: map<string, Checkpoint>

    constructor ()
      ensures latest == map[]
    {
      latest := map[];
    }

    method SaveCheckpoint(runId: string, cp: Checkpoint)
      modifies this
      ensures latest == old(latest)[runId := cp]
    {
      latest := latest[runId := cp];
    }
  }

  /** The table lists the outgoing edges of every node. */
  ghost predicate Indexes(table: map<string, seq<Edge>>, edges: seq<Edge>) {
    forall id :: OutEdges(edges, id) == if id in table then table[id] else []
  }

  class CompiledGraph {
    const g: Graph
    var edgeMap: map<string, seq<Edge>>

    ghost predicate Valid()
      reads this
    {
      Indexes(edgeMap, g.edges)
    }

    constructor (g: Graph)
      ensures Valid() && this.g == g
    {
      this.g := g;
      this.edgeMap := map[];
      new;
      for i := 0 to |g.edges|
        invariant Indexes(edgeMap, g.edges[..i])
      {
        var edge := g.edges[i];
        assert g.edges[..i + 1] == g.edges[..i] + [edge];
        edgeMap := edgeMap[edge.source := (if edge.source in edgeMap then edgeMap[edge.source] else []) + [edge]];
      }
      assert g.edges[..|g.edges|] == g.edges;
    }

    method ExecuteParallel(targets: seq<Target>, s: State) returns (r: Result<State, RunError>)
      ensures r == FanOut(g, targets, s)
    {
      FirstUnknownNone(g, targets);
      var unknown := FirstUnknown(g, targets);
      if unknown.Some? {
        return Err(UnknownBranch(unknown.value));
      }
      var results := BranchResults(g, targets, s);
      var errors, updates := [], [];
      for i := 0 to |results|
        invariant errors == Errors(results[..i]) && updates == Updates(results[..i])
      {
        assert results[..i + 1][..i] == results[..i];
        match results[i] {
          case Ok(u) => updates := updates + [u];
          case Err(e) => errors := errors + [e];
        }
      }
      assert results[..|results|] == results;
      if errors != [] {
        return Err(ParallelFailed(errors));
      }
      var merged := MergeParallelUpdates(g.schema, s, updates);
      return match merged case Err(e) => Err(BadState(e)) case Ok(t) => Ok(t);
    }

    method ResolveNext(id: string, s: State, ctx: ExecutionContext) returns (r: Result<(Target, State), RunError>)
      requires Valid()
      modifies ctx`loopCounters
      ensures (r, ctx.loopCounters) == Next(g, id, s, old(ctx.loopCounters))
    {
      var edges := if id in edgeMap then edgeMap[id] else [];
      if edges == [] {
        return Ok((End, s));
      }
      match edges[0] {
        case Direct(_, target) =>
          return Ok((target, s));
        case Conditional(_, _, _) =>
          var (target, counters) := ResolveEdge(edges[0], s, ctx.loopCounters);
          ctx.loopCounters := counters;
          return match target case Err(e) => Err(BadRoute(e)) case Ok(t) => Ok((t, s));
        case Parallel(_, targets, joinNode) =>
          var merged := ExecuteParallel(targets, s);
          var to := if joinNode.Some? then joinNode.value else End;
          return match merged case Err(e) => Err(e) case Ok(t) => Ok((to, t));
      }
    }

    /** The part of an iteration that runs the node and folds its update into the state. */
    method ExecuteAndApply(id: string, node: Node, s: State, ctx: ExecutionContext) returns (r: Result<State, RunError>)
      modifies ctx`state, ctx`nodeExecutionOrder
      ensures r == Execute(g.schema, id, node, s)
      ensures ctx.state == s && ctx.nodeExecutionOrder == OrderAfter(node, s, id, old(ctx.nodeExecutionOrder))
    {
      ctx.state := s;
      var update := node.body(s);
      if update.Err? {
        return Err(NodeFailed(id, update.error));
      }
      ctx.nodeExecutionOrder := ctx.nodeExecutionOrder + [id];
      if update.value == [] {
        return Ok(s);
      }
      var applied := ApplyStateUpdate(g.schema, s, update.value);
      return match applied case Err(e) => Err(BadState(e)) case Ok(t) => Ok(t);
    }

    /** One iteration of the loop: stop with an outcome, or move to the next node and state. */
    method Turn(id: string, s: State, ctx: ExecutionContext, store: CheckpointStore, bypass: bool)
      returns (stop: Option<Outcome>, to: Target, t: State)
      requires Valid()
      modifies ctx, store
      ensures var c := Config(At(id), s, old(ctx.Bookkeeping()));
              match Step(g, c, bypass)
              case Stopped(outcome, progress, _) => stop == Some(outcome) && ctx.Bookkeeping() == progress
              case Moved(next, _) => stop.None? && Config(to, t, ctx.Bookkeeping()) == next
      ensures ctx.runId == old(ctx.runId)
      ensures store.latest == if stop.Some? && stop.value.Interrupted?
                              then old(store.latest)[ctx.runId := stop.value.checkpoint] else old(store.latest)
    {
      stop, to, t := None, End, s;
      ctx.turnNumber, ctx.nodeId := ctx.turnNumber + 1, id;
      if id !in g.nodes {
        stop := Some(Failed(NodeNotFound(id)));
        return;
      }
      var node := g.nodes[id];
      if node.interruptBefore && !bypass {
        var cp := Checkpoint(id, Before, s, ctx.loopCounters, ctx.nodeExecutionOrder);
        store.SaveCheckpoint(ctx.runId, cp);
        stop := Some(Interrupted(cp));
        return;
      }
      var executed := ExecuteAndApply(id, node, s, ctx);
      if executed.Err? {
        stop := Some(Failed(executed.error));
        return;
      }
      var next := ResolveNext(id, executed.value, ctx);
      if next.Err? {
        stop := Some(Failed(next.error));
        return;
      }
      to, t := next.value.0, next.value.1;
      if node.interruptAfter {
        var cp := Checkpoint(TargetName(to), After, executed.value, ctx.loopCounters, ctx.nodeExecutionOrder);
        store.SaveCheckpoint(ctx.runId, cp);
        stop := Some(Interrupted(cp));
      }
    }

    /** The while loop shared by run() and resume(). */
    method RunLoop(start: Target, initial: State, ctx: ExecutionContext, store: CheckpointStore, bypassOnStart: bool)
      returns (outcome: Outcome)
      requires Valid()
      modifies ctx, store
      ensures var r := Run(g, Config(start, initial, old(ctx.Bookkeeping())), bypassOnStart);
              outcome == r.outcome && ctx.Bookkeeping() == r.progress
      ensures ctx.runId == old(ctx.runId)
      ensures store.latest == if outcome.Interrupted? then old(store.latest)[ctx.runId := outcome.checkpoint]
                              else old(store.latest)
    {
      var current, state, bypass := start, initial, bypassOnStart;
      ghost var whole := Run(g, Config(start, initial, ctx.Bookkeeping()), bypassOnStart);
      while current != End && ctx.turnNumber < g.maxTurns
        invariant ctx.runId == old(ctx.runId) && store.latest == old(store.latest)
        invariant var r := Run(g, Config(current, state, ctx.Bookkeeping()), bypass);
                  r.outcome == whole.outcome && r.progress == whole.progress
        decreases g.maxTurns - ctx.turnNumber
      {
        var stop, to, t := Turn(current.id, state, ctx, store, bypass);
        if stop.Some? {
          return stop.value;
        }
        current, state, bypass := to, t, false;
      }
      if ctx.turnNumber >= g.maxTurns && current != End {
        return Failed(MaxIterations(current.id));
      }
      return Finished(state);
    }

    /** resume(): continue a run from its latest checkpoint, on its state with the given edits. */
    method Resume(
      runId: string, edits: State, store: CheckpointStore) returns (outcome: Outcome, ctx: ExecutionContext?)
      requires Valid()
      modifies store
      ensures runId !in old(store.latest) ==>
                outcome == Failed(NoCheckpoint) && ctx == null && store.latest == old(store.latest)
      ensures runId in old(store.latest) ==>
                var cp := old(store.latest)[runId];
                var edited := Edited(g.schema, cp.state, edits);
                && ctx != null && fresh(ctx)
                && (edited.Err? ==> outcome == Failed(edited.error) && store.latest == old(store.latest))
                && (edited.Ok? ==>
                      var r := Run(g, Resumed(cp.(state := edited.value)), cp.kind.Before?);
                      && outcome == r.outcome && ctx.Bookkeeping() == r.progress
                      && store.latest == if outcome.Interrupted? then old(store.latest)[runId := outcome.checkpoint]
                                         else old(store.latest))
    {
      if runId !in store.latest {
        return Failed(NoCheckpoint), null;
      }
      var cp := store.latest[runId];
      ctx := new ExecutionContext(runId, cp.counters, cp.order);
      var edited := Edited(g.schema, cp.state, edits);
      if edited.Err? {
        return Failed(edited.error), ctx;
      }
      outcome := RunLoop(At(cp.node), edited.value, ctx, store, cp.kind == Before);
    }
  }
}
