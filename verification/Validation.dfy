/** What the checks of compile() guarantee about runs (src/orchestra/core/graph.py, src/orchestra/core/compiled.py). */
module Validation {
  import opened Wrappers
  import opened WorkflowState
  import opened Edges
  import opened Engine
  import opened Interrupts
  import opened Builder

  /** The run did not end on a node or branch that the graph does not have. */
  predicate FindsNodes(o: Outcome) {
    o.Failed? ==> !o.error.NodeNotFound? && !o.error.UnknownBranch?
  }

  lemma {:induction false} EveryEdgeChecked(nodes: map<string, Node>, edges: seq<Edge>, e: Edge)
    requires FirstEdgeError(nodes, edges).None? && e in edges
    ensures EdgeError(nodes, e).None?
  {
    if e != edges[0] {
      EveryEdgeChecked(nodes, edges[1..], e);
    }
  }

  lemma {:induction false} BranchesChecked(nodes: map<string, Node>, targets: seq<Target>)
    ensures UnknownAmong(nodes, targets).None? <==> forall t :: t in targets ==> KnownTarget(nodes, t)
  {
    if targets != [] {
      assert targets == [targets[0]] + targets[1..];
      BranchesChecked(nodes, targets[1..]);
    }
  }

  lemma {:induction false} OutEdgesAreEdges(edges: seq<Edge>, id: string)
    ensures forall e :: e in OutEdges(edges, id) ==> e in edges
    decreases |edges|
  {
    if edges != [] {
      OutEdgesAreEdges(edges[..|edges| - 1], id);
    }
  }

  /** A fan-out between nodes fails on a missing branch exactly when END is among its targets, and then for sure. */
  lemma FanOutFindsBranches(g: Graph, targets: seq<Target>, s: State)
    requires forall t :: t in targets ==> KnownTarget(g.nodes, t)
    ensures End in targets <==> FanOut(g, targets, s).Err? && !FindsNodes(Failed(FanOut(g, targets, s).error))
  {
    FirstUnknownNone(g, targets);
  }

  /** A routing function's value that the path map does not translate, and that is neither a node nor END. */
  predicate StrayRoute(nodes: map<string, Node>, e: Edge, s: State, counters: Counters)
    requires e.Conditional?
  {
    var value := e.condition(s, counters).value;
    value.Ok? && (e.pathMap.None? || CoercePathKey(value.value).None?) && !KnownTarget(nodes, AsTarget(value.value))
  }

  /** The first exit of a node goes to a node that does not exist: a join, or a route past the path map. */
  predicate StrayExit(g: Graph, id: string, s: State, counters: Counters) {
    var out := OutEdges(g.edges, id);
    out != [] &&
    match out[0]
    case Direct(_, _) => false
    case Conditional(_, _, _) => StrayRoute(g.nodes, out[0], s, counters)
    case Parallel(_, targets, join) => join.Some? && !KnownTarget(g.nodes, join.value) && FanOut(g, targets, s).Ok?
  }

  /** END stands among the branches of the first exit of a node. */
  predicate EndBranch(g: Graph, id: string) {
    var out := OutEdges(g.edges, id);
    out != [] && out[0].Parallel? && End in out[0].targets
  }

  /** A node that runs on this state, and has an END branch, or does not pause and leaves by a stray exit. */
  predicate GoesAstray(g: Graph, id: string, s: State, counters: Counters) {
    && id in g.nodes
    && var executed := Execute(g.schema, id, g.nodes[id], s);
       && executed.Ok?
       && (EndBranch(g, id) || (!g.nodes[id].interruptAfter && StrayExit(g, id, executed.value, counters)))
  }

  /** Of the exits of an accepted graph just the stray ones lead to a missing node, and just END is a missing branch. */
  lemma NextIsKnown(b: Blueprint, schema: Schema, maxTurns: int, id: string, s: State, counters: Counters)
    requires Compiled(b, schema, maxTurns).Ok?
    ensures var g := Compiled(b, schema, maxTurns).value;
            var next := Next(g, id, s, counters).0;
            && (next.Ok? ==> (KnownTarget(b.nodes, next.value.0) <==> !StrayExit(g, id, s, counters)))
            && (next.Err? ==> !StrayExit(g, id, s, counters))
            && (EndBranch(g, id) <==> next.Err? && !FindsNodes(Failed(next.error)))
  {
    var g := Compiled(b, schema, maxTurns).value;
    var out := OutEdges(g.edges, id);
    if out != [] {
      OutEdgesAreEdges(g.edges, id);
      var e := out[0];
      assert e in out;
      if e in b.edges {
        EveryEdgeChecked(b.nodes, b.edges, e);
        if e.Conditional? {
          RouteIsKnown(b.nodes, e, s, counters);
        } else if e.Parallel? {
          BranchesChecked(b.nodes, e.targets);
          FanOutFindsBranches(g, e.targets, s);
        }
      }
    }
  }

  lemma RouteIsKnown(nodes: map<string, Node>, e: Edge, s: State, counters: Counters)
    requires e.Conditional? && EdgeError(nodes, e).None?
    ensures var target := ResolveEdge(e, s, counters).0;
            && (target.Ok? ==> (KnownTarget(nodes, target.value) <==> !StrayRoute(nodes, e, s, counters)))
            && (target.Err? ==> !StrayRoute(nodes, e, s, counters))
  {
  }

  lemma StepFindsNodes(b: Blueprint, schema: Schema, maxTurns: int, c: Config, bypass: bool)
    requires Compiled(b, schema, maxTurns).Ok? && c.at.At? && c.at.id in b.nodes
    ensures var g := Compiled(b, schema, maxTurns).value;
            var step, stray := Step(g, c, bypass), GoesAstray(g, c.at.id, c.state, c.progress.counters);
            && (step.Moved? ==> (KnownTarget(b.nodes, step.next.at) <==> !stray) &&
                                step.next.progress.turn == c.progress.turn + 1)
            && (step.Stopped? && !stray ==> FindsNodes(step.outcome))
            && (step.Stopped? && stray && bypass ==> !FindsNodes(step.outcome))
  {
    var g := Compiled(b, schema, maxTurns).value;
    var executed := Execute(g.schema, c.at.id, g.nodes[c.at.id], c.state);
    if executed.Ok? {
      NextIsKnown(b, schema, maxTurns, c.at.id, executed.value, c.progress.counters);
    }
  }

  ghost predicate NeverAstray(g: Graph) {
    forall id, s, counters :: !GoesAstray(g, id, s, counters)
  }

  /** Every run from a node of the graph, on any state and with any progress, finds its nodes. */
  ghost predicate AllRunsFindNodes(g: Graph) {
    forall c: Config, bypass :: KnownTarget(g.nodes, c.at) ==> FindsNodes(Run(g, c, bypass).outcome)
  }

  lemma {:induction false} UnstrayedRunFindsNodes(b: Blueprint, schema: Schema, maxTurns: int, c: Config, bypass: bool)
    requires Compiled(b, schema, maxTurns).Ok? && NeverAstray(Compiled(b, schema, maxTurns).value)
    requires KnownTarget(b.nodes, c.at)
    ensures FindsNodes(Run(Compiled(b, schema, maxTurns).value, c, bypass).outcome)
    decreases maxTurns - c.progress.turn
  {
    var g := Compiled(b, schema, maxTurns).value;
    if c.at.At? && c.progress.turn < maxTurns {
      StepFindsNodes(b, schema, maxTurns, c, bypass);
      assert !GoesAstray(g, c.at.id, c.state, c.progress.counters);
      var step := Step(g, c, bypass);
      if step.Moved? {
        UnstrayedRunFindsNodes(b, schema, maxTurns, step.next, false);
      }
    }
  }

  /** A step to a missing node fails one turn later. */
  lemma MissingNodeFails(g: Graph, c: Config, bypass: bool)
    requires c.at.At? && c.progress.turn + 1 < g.maxTurns && Step(g, c, bypass).Moved?
    requires !KnownTarget(g.nodes, Step(g, c, bypass).next.at)
    ensures Run(g, c, bypass).outcome == Failed(NodeNotFound(Step(g, c, bypass).next.at.id))
  {
    var next := Step(g, c, bypass).next;
    assert next.progress.turn == c.progress.turn + 1;
    assert Run(g, next, false).outcome == Failed(NodeNotFound(next.at.id));
  }

  /**
   The runs of a graph that compile() accepted, from all its nodes and on all states, find their nodes if and only if no
   node that runs on some state has END among its branches, or does not pause and leaves by a fan-out to a missing join
   node whose branches merge, or by a route past the path map to what is neither a node nor END.
   */
  lemma RunsFindTheirNodes(b: Blueprint, schema: Schema, maxTurns: int)
    requires Compiled(b, schema, maxTurns).Ok? && maxTurns >= 2
    ensures AllRunsFindNodes(Compiled(b, schema, maxTurns).value) <==> NeverAstray(Compiled(b, schema, maxTurns).value)
  {
    var g := Compiled(b, schema, maxTurns).value;
    if NeverAstray(g) {
      forall c: Config, bypass | KnownTarget(g.nodes, c.at)
        ensures FindsNodes(Run(g, c, bypass).outcome)
      {
        UnstrayedRunFindsNodes(b, schema, maxTurns, c, bypass);
      }
    } else {
      var id, s, counters :| GoesAstray(g, id, s, counters);
      var c := Config(At(id), s, Progress(0, [], counters));
      AstrayRunFails(b, schema, maxTurns, c);
      assert !FindsNodes(Run(g, c, true).outcome);
    }
  }

  lemma AstrayRunFails(b: Blueprint, schema: Schema, maxTurns: int, c: Config)
    requires Compiled(b, schema, maxTurns).Ok? && maxTurns >= 2 && c.at.At? && c.progress.turn == 0
    requires GoesAstray(Compiled(b, schema, maxTurns).value, c.at.id, c.state, c.progress.counters)
    ensures !FindsNodes(Run(Compiled(b, schema, maxTurns).value, c, true).outcome)
  {
    var g := Compiled(b, schema, maxTurns).value;
    StepFindsNodes(b, schema, maxTurns, c, true);
    if Step(g, c, true).Moved? {
      MissingNodeFails(g, c, true);
    }
  }

  // ---- Runs that are resumed ----

  /** The first exit of a node that pauses afterwards is END, which the checkpoint keeps as a node's name. */
  predicate PausesAtEnd(g: Graph, id: string, s: State, counters: Counters) {
    && id in g.nodes && g.nodes[id].interruptAfter && "END" !in g.nodes
    && var next := Next(g, id, s, counters).0;
       next.Ok? && next.value.0.End?
  }

  /** A node that runs on this state, pausing or not, and has an END branch, leaves by a stray exit or pauses at END. */
  predicate LeadsAstray(g: Graph, id: string, s: State, counters: Counters) {
    && id in g.nodes
    && var executed := Execute(g.schema, id, g.nodes[id], s);
       && executed.Ok?
       && (|| EndBranch(g, id)
           || StrayExit(g, id, executed.value, counters)
           || PausesAtEnd(g, id, executed.value, counters))
  }

  ghost predicate NeverLeadsAstray(g: Graph) {
    forall id, s, counters :: !LeadsAstray(g, id, s, counters)
  }

  /** Every run from a node of the graph finds its nodes, however often it is resumed. */
  ghost predicate AllChainsFindNodes(g: Graph) {
    forall c: Config, bypass, n: nat :: KnownTarget(g.nodes, c.at) ==> FindsNodes(Chain(g, c, bypass, n).outcome)
  }

  predicate PausesAtNode(g: Graph, o: Outcome) {
    o.Interrupted? ==> o.checkpoint.node in g.nodes
  }

  lemma StepPausesAtNode(b: Blueprint, schema: Schema, maxTurns: int, c: Config, bypass: bool)
    requires Compiled(b, schema, maxTurns).Ok? && c.at.At? && c.at.id in b.nodes
    ensures var g := Compiled(b, schema, maxTurns).value;
            var step, stray := Step(g, c, bypass), LeadsAstray(g, c.at.id, c.state, c.progress.counters);
            && (!stray && step.Stopped? ==> PausesAtNode(g, step.outcome))
            && (stray && bypass && step.Stopped? && FindsNodes(step.outcome) ==> !PausesAtNode(g, step.outcome))
  {
    var g := Compiled(b, schema, maxTurns).value;
    var executed := Execute(g.schema, c.at.id, g.nodes[c.at.id], c.state);
    if executed.Ok? {
      NextIsKnown(b, schema, maxTurns, c.at.id, executed.value, c.progress.counters);
    }
  }

  lemma {:induction false} RunPausesAtNode(b: Blueprint, schema: Schema, maxTurns: int, c: Config, bypass: bool)
    requires Compiled(b, schema, maxTurns).Ok? && NeverLeadsAstray(Compiled(b, schema, maxTurns).value)
    requires KnownTarget(b.nodes, c.at)
    ensures var g := Compiled(b, schema, maxTurns).value; PausesAtNode(g, Run(g, c, bypass).outcome)
    decreases maxTurns - c.progress.turn
  {
    var g := Compiled(b, schema, maxTurns).value;
    if c.at.At? && c.progress.turn < maxTurns {
      assert !LeadsAstray(g, c.at.id, c.state, c.progress.counters);
      StepPausesAtNode(b, schema, maxTurns, c, bypass);
      StepFindsNodes(b, schema, maxTurns, c, bypass);
      var step := Step(g, c, bypass);
      if step.Moved? {
        RunPausesAtNode(b, schema, maxTurns, step.next, false);
      }
    }
  }

  lemma {:induction false} ChainFindsNodes(
    b: Blueprint, schema: Schema, maxTurns: int, c: Config, bypass: bool, n: nat)
    requires Compiled(b, schema, maxTurns).Ok? && NeverLeadsAstray(Compiled(b, schema, maxTurns).value)
    requires KnownTarget(b.nodes, c.at)
    ensures FindsNodes(Chain(Compiled(b, schema, maxTurns).value, c, bypass, n).outcome)
    decreases n
  {
    var g := Compiled(b, schema, maxTurns).value;
    forall id, s, counters ensures !GoesAstray(g, id, s, counters) {
      assert !LeadsAstray(g, id, s, counters);
    }
    UnstrayedRunFindsNodes(b, schema, maxTurns, c, bypass);
    RunPausesAtNode(b, schema, maxTurns, c, bypass);
    var r := Run(g, c, bypass);
    if n > 0 && r.outcome.Interrupted? {
      ChainFindsNodes(b, schema, maxTurns, Resumed(r.outcome.checkpoint), r.outcome.checkpoint.kind.Before?, n - 1);
    }
  }

  lemma AstrayChainFails(b: Blueprint, schema: Schema, maxTurns: int, c: Config)
    requires Compiled(b, schema, maxTurns).Ok? && maxTurns >= 2 && c.at.At? && c.progress.turn == 0
    requires LeadsAstray(Compiled(b, schema, maxTurns).value, c.at.id, c.state, c.progress.counters)
    ensures !FindsNodes(Chain(Compiled(b, schema, maxTurns).value, c, true, 1).outcome)
  {
    var g := Compiled(b, schema, maxTurns).value;
    if GoesAstray(g, c.at.id, c.state, c.progress.counters) {
      AstrayRunFails(b, schema, maxTurns, c);
    } else {
      StepFindsNodes(b, schema, maxTurns, c, true);
      StepPausesAtNode(b, schema, maxTurns, c, true);
      assert g.nodes[c.at.id].interruptAfter;
      assert Step(g, c, true).Stopped?;
      ChainPauses(g, c, true, 1);
    }
  }

  /** The same for runs that are paused and resumed: then a node that pauses must not go astray or to END either. */
  lemma ResumedRunsFindTheirNodes(b: Blueprint, schema: Schema, maxTurns: int)
    requires Compiled(b, schema, maxTurns).Ok? && maxTurns >= 2
    ensures var g := Compiled(b, schema, maxTurns).value; AllChainsFindNodes(g) <==> NeverLeadsAstray(g)
  {
    var g := Compiled(b, schema, maxTurns).value;
    if NeverLeadsAstray(g) {
      forall c: Config, bypass, n: nat | KnownTarget(g.nodes, c.at)
        ensures FindsNodes(Chain(g, c, bypass, n).outcome)
      {
        ChainFindsNodes(b, schema, maxTurns, c, bypass, n);
      }
    } else {
      var id, s, counters :| LeadsAstray(g, id, s, counters);
      var c := Config(At(id), s, Progress(0, [], counters));
      AstrayChainFails(b, schema, maxTurns, c);
      assert !FindsNodes(Chain(g, c, true, 1).outcome);
    }
  }

  // ---- Join nodes are not checked ----

  lemma {:induction false} AppendedEdgeChecked(nodes: map<string, Node>, edges: seq<Edge>, e: Edge)
    requires FirstEdgeError(nodes, edges).None? && EdgeError(nodes, e).None?
    ensures FirstEdgeError(nodes, edges + [e]).None?
  {
    if edges != [] {
      assert (edges + [e])[1..] == edges[1..] + [e];
      AppendedEdgeChecked(nodes, edges[1..], e);
    } else {
      assert (edges + [e])[1..] == [];
    }
  }

  /** compile() accepts any join node whatever in a fan-out between existing nodes. */
  lemma AnyJoinPasses(b: Blueprint, source: string, targets: seq<Target>, join: Target)
    requires Validate(b).None? && source in b.nodes && forall t :: t in targets ==> KnownTarget(b.nodes, t)
    ensures Validate(b.(edges := b.edges + [Parallel(source, targets, Some(join))])).None?
  {
    BranchesChecked(b.nodes, targets);
    AppendedEdgeChecked(b.nodes, b.edges, Parallel(source, targets, Some(join)));
  }

  /** "plan" fans out to "work" and joins at a node nobody added. */
  const JOINS_NOWHERE: Blueprint :=
    Blueprint(map["plan" := IDLE, "work" := IDLE], [Parallel("plan", [At("work")], Some(At("gone")))],
              Some("plan"), None, None)

  const IDLE: Node := Node((_: State) => Ok([]), false, false)

  lemma JoinsNowhereCompiles(schema: Schema, maxTurns: int)
    ensures Compiled(JOINS_NOWHERE, schema, maxTurns) ==
            Ok(Graph(schema, JOINS_NOWHERE.nodes, JOINS_NOWHERE.edges, "plan", maxTurns))
  {
    var b := JOINS_NOWHERE;
    BranchesChecked(b.nodes, [At("work")]);
    assert b.edges[1..] == [] && "plan" in b.nodes;
    assert EdgeError(b.nodes, b.edges[0]).None?;
    assert FirstEdgeError(b.nodes, b.edges).None?;
  }

  lemma JoinsNowhereLeaves(g: Graph, s: State, counters: Counters)
    requires g.nodes == JOINS_NOWHERE.nodes && g.edges == JOINS_NOWHERE.edges && WellTyped(g.schema, s)
    ensures Next(g, "plan", s, counters).0 == Ok((At("gone"), s))
  {
    assert g.edges[..0] == [] && OutEdges(g.edges, "plan") == [] + [g.edges[0]];
    IdleFanOut(g, s);
  }

  /** compile() accepts it, and every run of it with two turns fails on the missing join node. */
  lemma JoinsNowhereFails(schema: Schema, maxTurns: int, s: State)
    requires maxTurns >= 2 && WellTyped(schema, s)
    ensures var g := Compiled(JOINS_NOWHERE, schema, maxTurns);
            g.Ok? && Run(g.value, Config(At(g.value.entry), s, Progress(0, [], map[])), false).outcome
                     == Failed(NodeNotFound("gone"))
  {
    JoinsNowhereCompiles(schema, maxTurns);
    var g := Compiled(JOINS_NOWHERE, schema, maxTurns).value;
    JoinsNowhereLeaves(g, s, map[]);
    assert Execute(schema, "plan", IDLE, s) == Ok(s);
    MissingNodeFails(g, Config(At("plan"), s, Progress(0, [], map[])), false);
  }

  lemma IdleFanOut(g: Graph, s: State)
    requires "work" in g.nodes && g.nodes["work"] == IDLE && WellTyped(g.schema, s)
    ensures FanOut(g, [At("work")], s) == Ok(s)
  {
    var nothing: Update := [];
    FirstUnknownNone(g, [At("work")]);
    var results := BranchResults(g, [At("work")], s);
    assert results == [Ok(nothing)] && results[..0] == [] && [At("work")][1..] == [];
    assert Updates(results) == [] + [nothing] == [nothing];
    assert Errors(results) == [];
    assert [nothing][..0] == [] && Merge(g.schema, s, [nothing]) == ApplyUpdate(g.schema, s, nothing);
  }

  // ---- END among the branches ----

  /** "plan" fans out to "work" and END. */
  const ENDS_IN_BRANCH: Blueprint :=
    Blueprint(map["plan" := IDLE, "work" := IDLE], [Parallel("plan", [At("work"), End], None)],
              Some("plan"), None, None)

  /** compile() accepts END as a branch, and every run fails when it looks for the node END. */
  lemma EndInBranchFails(schema: Schema, maxTurns: int, s: State)
    requires maxTurns >= 1
    ensures var g := Compiled(ENDS_IN_BRANCH, schema, maxTurns);
            g.Ok? && Run(g.value, Config(At(g.value.entry), s, Progress(0, [], map[])), false).outcome
                     == Failed(UnknownBranch(End))
  {
    var b, targets := ENDS_IN_BRANCH, [At("work"), End];
    BranchesChecked(b.nodes, targets);
    assert b.edges[1..] == [] && "plan" in b.nodes;
    assert EdgeError(b.nodes, b.edges[0]).None?;
    assert FirstEdgeError(b.nodes, b.edges).None?;
    var g := Compiled(b, schema, maxTurns).value;
    assert g.edges[..0] == [] && OutEdges(g.edges, "plan") == [] + [g.edges[0]];
    assert targets[1..] == [End] && FirstUnknown(g, targets) == Some(End);
  }
}
