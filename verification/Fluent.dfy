/**
 Fluent programs: their direct meaning, and what .then, .parallel(...).join(...) and .loop build
 from them.
 */
module Fluent {
  import opened Wrappers
  import opened WorkflowState
  import opened Edges
  import opened Engine
  import opened Builder

  // ---- Programs and their direct meaning ----

  datatype Stage =
    | Then(id: string, node: Node)
    | Fan(branches: seq<(string, Node)>, joinId: string, joinNode: Node)
    | Loop(loopId: string, loopNode: Node, condition: State -> bool, maxIterations: int)

  function MainId(st: Stage): string {
    match st case Then(id, _) => id case Fan(_, id, _) => id case Loop(id, _, _, _) => id
  }

  function MainNode(st: Stage): Node {
    match st case Then(_, n) => n case Fan(_, _, n) => n case Loop(_, n, _, _) => n
  }

  /** What a program does: the nodes it runs through, and how it ends. */
  datatype Effect = Effect(order: seq<string>, outcome: Outcome)

  function Through(id: string, rest: Effect): Effect {
    rest.(order := [id] + rest.order)
  }

  function BranchOutputs(branches: seq<(string, Node)>, s: State): seq<Result<Update, string>> {
    seq(|branches|, i requires 0 <= i < |branches| => branches[i].1.body(s))
  }

  /** The stages one after the other; branches all read the state before the fan-out. */
  function Meaning(schema: Schema, stages: seq<Stage>, s: State, turns: int): Effect
    decreases |stages|, 1
  {
    if stages == [] then Effect([], Finished(s)) else
    match stages[0]
    case Fan(branches, _, _) =>
      (match MergeBranches(schema, s, BranchOutputs(branches, s))
       case Err(e) => Effect([], Failed(e))
       case Ok(t) => Enter(schema, stages, t, turns))
    case Then(_, _) => Enter(schema, stages, s, turns)
    case Loop(_, _, _, _) => Enter(schema, stages, s, turns)
  }

  /** From the main node of the first stage on; nothing follows a loop. */
  function Enter(schema: Schema, stages: seq<Stage>, s: State, turns: int): Effect
    requires stages != []
    decreases |stages|, 0
  {
    var st := stages[0];
    if st.Loop? then Repeat(schema, st, s, 1, turns)
    else if turns <= 0 then Effect([], Failed(MaxIterations(MainId(st))))
    else
      match Execute(schema, MainId(st), MainNode(st), s)
      case Err(e) => Effect(OrderAfter(MainNode(st), s, MainId(st), []), Failed(e))
      case Ok(t) => Through(MainId(st), Meaning(schema, stages[1..], t, turns - 1))
  }

  /** The body again and again: at most maxIterations passes, until the condition is false. */
  function Repeat(schema: Schema, st: Stage, s: State, pass: nat, turns: int): Effect
    requires st.Loop?
    decreases turns
  {
    if turns <= 0 then Effect([], Failed(MaxIterations(st.loopId))) else
    match Execute(schema, st.loopId, st.loopNode, s)
    case Err(e) => Effect(OrderAfter(st.loopNode, s, st.loopId, []), Failed(e))
    case Ok(t) =>
      if pass >= st.maxIterations || !st.condition(t) then Effect([st.loopId], Finished(t))
      else Through(st.loopId, Repeat(schema, st, t, pass + 1, turns - 1))
  }

  // ---- Building a program ----

  function BranchIds(branches: seq<(string, Node)>): (ids: seq<string>) {
    seq(|branches|, i requires 0 <= i < |branches| => branches[i].0)
  }

  function Ids(st: Stage): seq<string> {
    match st
    case Then(id, _) => [id]
    case Fan(branches, id, _) => BranchIds(branches) + [id]
    case Loop(id, _, _, _) => [id]
  }

  function AllIds(p: seq<Stage>): seq<string> {
    if p == [] then [] else AllIds(p[..|p| - 1]) + Ids(p[|p| - 1])
  }

  ghost predicate Distinct(ids: seq<string>) {
    forall i, j :: 0 <= i < j < |ids| ==> ids[i] != ids[j]
  }

  /** Starts with a node of its own, under a name; all names distinct and none reserved. */
  ghost predicate WellFormed(p: seq<Stage>) {
    && p != [] && !p[0].Fan? && MainId(p[0]) != ""
    && Distinct(AllIds(p)) && START !in AllIds(p)
  }

  /** The builder calls of one stage. */
  function StageAdded(b: Blueprint, st: Stage): Built {
    match st
    case Then(id, node) => ThenAdded(b, id, node)
    case Fan(branches, id, node) =>
      var r := FanAdded(b, branches);
      if r.error.Some? then r else Joined(r.b, id, node)
    case Loop(id, node, condition, maxIterations) => LoopAdded(b, id, node, condition, maxIterations)
  }

  function Build(p: seq<Stage>): Built {
    if p == [] then Built(EMPTY, None) else
    var r := Build(p[..|p| - 1]);
    if r.error.Some? then r else StageAdded(r.b, p[|p| - 1])
  }

  /** The edge into a stage. */
  function Link(source: string, st: Stage): Edge {
    match st
    case Then(id, _) => Direct(source, At(id))
    case Fan(branches, id, _) => Parallel(source, Ats(BranchIds(branches)), Some(At(id)))
    case Loop(id, _, _, _) => Direct(source, At(id))
  }

  function LoopEdge(st: Stage): Edge
    requires st.Loop?
  {
    Conditional(st.loopId, LoopRoute(st.loopId, st.condition, st.maxIterations), None)
  }

  function OwnEdges(st: Stage): seq<Edge> {
    if st.Loop? then [LoopEdge(st)] else []
  }

  function Exits(p: seq<Stage>, i: nat): seq<Edge>
    requires i < |p|
  {
    OwnEdges(p[i]) +
    (if i + 1 < |p| then [Link(MainId(p[i]), p[i + 1])] else [])
  }

  // ---- What the built fields look like ----

  predicate GoodEdge(nodes: map<string, Node>, edge: Edge) {
    && edge.source in nodes
    && match edge
       case Direct(_, target) => KnownTarget(nodes, target)
       case Conditional(_, _, pathMap) => pathMap.None?
       case Parallel(_, targets, joinNode) => joinNode.Some? && forall t :: t in targets ==> KnownTarget(nodes, t)
  }

  ghost predicate HasNodes(nodes: map<string, Node>, st: Stage) {
    && MainId(st) in nodes && nodes[MainId(st)] == MainNode(st)
    && (st.Fan? ==> forall b :: b in st.branches ==> b.0 in nodes && nodes[b.0] == b.1)
  }

  ghost predicate NodesMatch(p: seq<Stage>, nodes: map<string, Node>) {
    && (forall id :: id in nodes <==> id in AllIds(p))
    && (forall i :: 0 <= i < |p| ==> HasNodes(nodes, p[i]))
    && (forall i, j :: 0 <= i < j < |p| ==> MainId(p[i]) != MainId(p[j]))
  }

  ghost predicate EdgesMatch(p: seq<Stage>, edges: seq<Edge>) {
    forall i {:trigger Exits(p, i)} {:trigger OutEdges(edges, MainId(p[i]))} ::
      0 <= i < |p| ==> OutEdges(edges, MainId(p[i])) == Exits(p, i)
  }

  ghost predicate AllGood(nodes: map<string, Node>, edges: seq<Edge>) {
    forall e :: e in edges ==> GoodEdge(nodes, e)
  }

  ghost predicate Inv(p: seq<Stage>, b: Blueprint)
    requires p != []
  {
    && b.entry == Some(MainId(p[0])) && b.last == Some(MainId(p[|p| - 1])) && b.parallelNodes.None?
    && NodesMatch(p, b.nodes) && EdgesMatch(p, b.edges) && AllGood(b.nodes, b.edges)
  }

  lemma OutEdgesSnoc(edges: seq<Edge>, e: Edge, id: string)
    ensures OutEdges(edges + [e], id) == OutEdges(edges, id) + if e.source == id then [e] else []
  {
    assert (edges + [e])[..|edges|] == edges;
  }

  lemma {:induction false} NoEdgesFrom(nodes: map<string, Node>, edges: seq<Edge>, id: string)
    requires id !in nodes && AllGood(nodes, edges)
    ensures OutEdges(edges, id) == []
  {
    if edges != [] {
      NoEdgesFrom(nodes, edges[..|edges| - 1], id);
      assert edges[|edges| - 1] in edges;
    }
  }

  lemma SnocIds(p: seq<Stage>, st: Stage)
    requires Distinct(AllIds(p + [st]))
    ensures AllIds(p + [st]) == AllIds(p) + Ids(st)
    ensures Distinct(AllIds(p)) && Distinct(Ids(st))
    ensures forall id :: id in Ids(st) ==> id !in AllIds(p)
    ensures MainId(st) in Ids(st)
  {
    assert (p + [st])[..|p|] == p;
    var all, front, back := AllIds(p + [st]), AllIds(p), Ids(st);
    assert forall i :: 0 <= i < |front| ==> all[i] == front[i];
    assert forall i :: 0 <= i < |back| ==> all[|front| + i] == back[i];
    assert back[|back| - 1] == MainId(st);
  }

  /** parallel() with fresh, distinct names adds its nodes under just those names. */
  lemma {:induction false} FreshBranches(b: Blueprint, branches: seq<(string, Node)>)
    requires b.entry.Some? && Distinct(BranchIds(branches))
    requires forall br :: br in branches ==> br.0 !in b.nodes && br.0 != START
    ensures var (r, ids) := BranchesAdded(b, branches);
            && r.error.None? && ids == BranchIds(branches) && r.b == b.(nodes := r.b.nodes)
            && (forall id :: id in r.b.nodes <==> id in b.nodes || id in BranchIds(branches))
            && (forall id :: id in b.nodes ==> r.b.nodes[id] == b.nodes[id])
            && (forall br :: br in branches ==> br.0 in r.b.nodes && r.b.nodes[br.0] == br.1)
    decreases |branches|
  {
    if branches != [] {
      var i := |branches| - 1;
      var init := branches[..i];
      LastBranchIsNew(branches);
      FreshBranches(b, init);
    }
  }

  lemma LastBranchIsNew(branches: seq<(string, Node)>)
    requires branches != [] && Distinct(BranchIds(branches))
    ensures var init, last := BranchIds(branches[..|branches| - 1]), branches[|branches| - 1].0;
            && BranchIds(branches) == init + [last] && Distinct(init) && last !in init
            && forall br :: br in branches ==>
                 br == branches[|branches| - 1] || (br in branches[..|branches| - 1] && br.0 in init)
  {
    var i := |branches| - 1;
    var all, init := BranchIds(branches), BranchIds(branches[..i]);
    assert forall j :: 0 <= j < |init| ==> init[j] == all[j] != all[i];
    assert forall j, k :: 0 <= j < k < |init| ==> init[j] == all[j] && init[k] == all[k];
    forall br | br in branches[..i]
      ensures br.0 in init
    {
      var j :| 0 <= j < i && branches[j] == br;
      assert init[j] == br.0;
    }
  }

  /** What adding a stage does to the fields: its nodes, the edge into it and, for a loop, its own edge. */
  ghost predicate Adds(b: Blueprint, st: Stage, c: Blueprint)
    requires b.last.Some?
  {
    && c == Blueprint(c.nodes, b.edges + [Link(b.last.value, st)] + OwnEdges(st), b.entry, Some(MainId(st)), None)
    && (forall id :: id in c.nodes <==> id in b.nodes || id in Ids(st))
    && (forall id :: id in b.nodes ==> c.nodes[id] == b.nodes[id])
    && HasNodes(c.nodes, st)
  }

  lemma StageFields(b: Blueprint, st: Stage)
    requires b.entry.Some? && b.last.Some? && b.parallelNodes.None?
    requires b.last != Some(MainId(st)) && Distinct(Ids(st))
    requires forall id :: id in Ids(st) ==> id !in b.nodes && id != START
    requires AllGood(b.nodes, b.edges)
    ensures StageAdded(b, st).error.None? && Adds(b, st, StageAdded(b, st).b)
  {
    if st.Fan? {
      FanFields(b, st);
    } else {
      assert Ids(st) == [MainId(st)];
      assert b.edges + [Link(b.last.value, st)] + [] == b.edges + [Link(b.last.value, st)];
    }
  }

  lemma BranchNames(st: Stage)
    requires st.Fan? && Distinct(Ids(st))
    ensures Distinct(BranchIds(st.branches)) && st.joinId !in BranchIds(st.branches)
    ensures forall br :: br in st.branches ==> br.0 in BranchIds(st.branches)
    ensures forall id :: id in Ids(st) <==> id in BranchIds(st.branches) || id == st.joinId
  {
    var ids := BranchIds(st.branches);
    assert forall i :: 0 <= i < |ids| ==> Ids(st)[i] == ids[i];
    assert Ids(st)[|ids|] == st.joinId;
    forall br | br in st.branches ensures br.0 in ids {
      var i :| 0 <= i < |st.branches| && st.branches[i] == br;
      assert ids[i] == br.0;
    }
  }

  lemma FanFields(b: Blueprint, st: Stage)
    requires st.Fan? && b.entry.Some? && b.last.Some? && b.parallelNodes.None?
    requires Distinct(Ids(st)) && AllGood(b.nodes, b.edges)
    requires forall id :: id in Ids(st) ==> id !in b.nodes && id != START
    ensures StageAdded(b, st).error.None? && Adds(b, st, StageAdded(b, st).b)
  {
    BranchNames(st);
    FreshBranches(b, st.branches);
    var ids, open := BranchIds(st.branches), Parallel(b.last.value, Ats(BranchIds(st.branches)), None);
    var fanned := FanAdded(b, st.branches).b;
    assert fanned.edges == b.edges + [open];
    JoinCloses(b, ids, b.last.value, st.joinId);
    assert b.edges + [Link(b.last.value, st)] + [] == b.edges + [Link(b.last.value, st)];
  }

  lemma JoinCloses(b: Blueprint, ids: seq<string>, source: string, id: string)
    requires AllGood(b.nodes, b.edges)
    ensures CloseFanOut(b.edges + [Parallel(source, Ats(ids), None)], ids, id) ==
            b.edges + [Parallel(source, Ats(ids), Some(At(id)))]
  {
    var edges := b.edges + [Parallel(source, Ats(ids), None)];
    forall j | 0 <= j < |b.edges| ensures !OpenFanOut(edges[j], ids) {
      assert GoodEdge(b.nodes, b.edges[j]);
    }
    FirstOpenCloses(edges, ids, id, |b.edges|);
  }

  lemma GoodEdgeGrows(nodes: map<string, Node>, more: map<string, Node>, e: Edge)
    requires GoodEdge(nodes, e) && forall id :: id in nodes ==> id in more
    ensures GoodEdge(more, e)
  {
  }

  lemma GoodGrows(b: Blueprint, st: Stage, c: Blueprint)
    requires b.last.Some? && b.last.value in b.nodes && Adds(b, st, c) && AllGood(b.nodes, b.edges)
    ensures AllGood(c.nodes, c.edges)
  {
    forall e | e in c.edges ensures GoodEdge(c.nodes, e) {
      if e in b.edges {
        GoodEdgeGrows(b.nodes, c.nodes, e);
      } else if st.Fan? && e == Link(b.last.value, st) {
        forall t | t in e.targets ensures KnownTarget(c.nodes, t) {
          var i :| 0 <= i < |e.targets| && e.targets[i] == t;
          assert st.branches[i] in st.branches;
        }
      }
    }
  }

  lemma OutEdgesAdded(edges: seq<Edge>, source: string, st: Stage, id: string)
    ensures OutEdges(edges + [Link(source, st)] + OwnEdges(st), id) ==
            OutEdges(edges, id) + (if source == id then [Link(source, st)] else [])
            + (if id == MainId(st) then OwnEdges(st) else [])
  {
    OutEdgesSnoc(edges, Link(source, st), id);
    if st.Loop? {
      OutEdgesSnoc(edges + [Link(source, st)], LoopEdge(st), id);
    } else {
      assert edges + [Link(source, st)] + [] == edges + [Link(source, st)];
    }
  }

  lemma NewExits(p: seq<Stage>, b: Blueprint, st: Stage)
    requires AllGood(b.nodes, b.edges) && MainId(st) !in b.nodes && b.last.Some? && b.last.value in b.nodes
    ensures OutEdges(b.edges + [Link(b.last.value, st)] + OwnEdges(st), MainId(st)) == Exits(p + [st], |p|)
  {
    OutEdgesAdded(b.edges, b.last.value, st, MainId(st));
    NoEdgesFrom(b.nodes, b.edges, MainId(st));
    assert (p + [st])[|p|] == st && Exits(p + [st], |p|) == OwnEdges(st) + [];
    assert [] + [] + OwnEdges(st) == OwnEdges(st) == OwnEdges(st) + [];
  }

  lemma OldExits(p: seq<Stage>, edges: seq<Edge>, st: Stage, i: nat)
    requires i < |p| && OutEdges(edges, MainId(p[i])) == Exits(p, i)
    requires MainId(p[i]) != MainId(st) && (i + 1 < |p| ==> MainId(p[i]) != MainId(p[|p| - 1]))
    ensures OutEdges(edges + [Link(MainId(p[|p| - 1]), st)] + OwnEdges(st), MainId(p[i])) == Exits(p + [st], i)
  {
    OutEdgesAdded(edges, MainId(p[|p| - 1]), st, MainId(p[i]));
    var link, q := Link(MainId(p[|p| - 1]), st), p + [st];
    assert q[i] == p[i];
    if i + 1 < |p| {
      assert q[i + 1] == p[i + 1];
      assert Exits(p, i) + [] + [] == Exits(p, i);
    } else {
      assert Exits(p, i) == OwnEdges(p[i]) + [] == OwnEdges(p[i]);
      assert OwnEdges(p[i]) + [link] + [] == OwnEdges(p[i]) + [link];
    }
  }

  lemma {:induction false} EdgesGrow(p: seq<Stage>, b: Blueprint, st: Stage)
    requires p != [] && Inv(p, b) && MainId(st) !in b.nodes && b.last.value in b.nodes
    ensures EdgesMatch(p + [st], b.edges + [Link(b.last.value, st)] + OwnEdges(st))
  {
    var q, edges := p + [st], b.edges + [Link(b.last.value, st)] + OwnEdges(st);
    forall i | 0 <= i < |q|
      ensures OutEdges(edges, MainId(q[i])) == Exits(q, i)
    {
      if i < |p| {
        assert q[i] == p[i] && HasNodes(b.nodes, p[i]);
        OldExits(p, b.edges, st, i);
      } else {
        NewExits(p, b, st);
      }
    }
  }

  lemma {:induction false} NodesGrow(p: seq<Stage>, b: Blueprint, st: Stage, c: Blueprint)
    requires NodesMatch(p, b.nodes) && b.last.Some? && Adds(b, st, c) && MainId(st) !in b.nodes
    requires AllIds(p + [st]) == AllIds(p) + Ids(st)
    ensures NodesMatch(p + [st], c.nodes)
  {
    var q := p + [st];
    forall i | 0 <= i < |q|
      ensures HasNodes(c.nodes, q[i])
      ensures i < |p| ==> q[i] == p[i] && MainId(p[i]) != MainId(st)
    {
      if i < |p| {
        assert HasNodes(b.nodes, p[i]);
      }
    }
  }

  lemma {:induction false} InvGrows(p: seq<Stage>, b: Blueprint, st: Stage)
    requires p != [] && Inv(p, b)
    requires Distinct(AllIds(p + [st])) && START !in AllIds(p + [st])
    ensures StageAdded(b, st).error.None? && Inv(p + [st], StageAdded(b, st).b)
  {
    SnocIds(p, st);
    assert forall id :: id in Ids(st) ==> id in AllIds(p + [st]);
    assert HasNodes(b.nodes, p[|p| - 1]);
    StageFields(b, st);
    var c := StageAdded(b, st).b;
    GoodGrows(b, st, c);
    NodesGrow(p, b, st, c);
    EdgesGrow(p, b, st);
  }

  /** A well-formed program builds without error, into fields that satisfy the invariant. */
  lemma {:induction false} BuildSucceeds(p: seq<Stage>)
    requires WellFormed(p)
    ensures Build(p).error.None? && Inv(p, Build(p).b)
    decreases |p|
  {
    var init, st := p[..|p| - 1], p[|p| - 1];
    assert p == init + [st];
    SnocIds(init, st);
    if init == [] {
      FirstStage(p);
    } else {
      assert forall id :: id in AllIds(init) ==> id in AllIds(p);
      BuildSucceeds(init);
      InvGrows(init, Build(init).b, st);
    }
  }

  lemma {:induction false} FirstStage(p: seq<Stage>)
    requires WellFormed(p) && |p| == 1
    ensures Build(p).error.None? && Inv(p, Build(p).b)
  {
    OneStage(p);
    assert MainId(p[0]) in AllIds(p);
    FirstFields(p[0]);
    FirstInv(p, Build(p).b);
  }

  lemma OneStage(p: seq<Stage>)
    requires |p| == 1 && !p[0].Fan?
    ensures AllIds(p) == [MainId(p[0])] && Build(p) == StageAdded(EMPTY, p[0])
  {
    assert p[..0] == [] && AllIds(p) == [] + Ids(p[0]);
  }

  lemma {:induction false} FirstInv(p: seq<Stage>, b: Blueprint)
    requires |p| == 1 && !p[0].Fan? && AllIds(p) == [MainId(p[0])]
    requires b == OnlyStage(p[0])
    requires OutEdges(OwnEdges(p[0]), MainId(p[0])) == OwnEdges(p[0])
    ensures Inv(p, b)
  {
    assert Exits(p, 0) == OwnEdges(p[0]) + [];
    OneNodeMatches(p);
    OwnEdgesGood(p[0]);
  }

  /** The fields after a first stage. */
  function OnlyStage(st: Stage): Blueprint {
    Blueprint(map[MainId(st) := MainNode(st)], OwnEdges(st), Some(MainId(st)), Some(MainId(st)), None)
  }

  lemma OneNodeMatches(p: seq<Stage>)
    requires |p| == 1 && !p[0].Fan? && AllIds(p) == [MainId(p[0])]
    ensures NodesMatch(p, map[MainId(p[0]) := MainNode(p[0])])
  {
  }

  lemma OwnEdgesGood(st: Stage)
    ensures AllGood(map[MainId(st) := MainNode(st)], OwnEdges(st))
  {
  }

  lemma FirstFields(st: Stage)
    requires !st.Fan? && MainId(st) != START
    ensures StageAdded(EMPTY, st) ==
            Built(OnlyStage(st), None)
    ensures OutEdges(OwnEdges(st), MainId(st)) == OwnEdges(st)
  {
    assert st.Loop? ==> [] + [LoopEdge(st)] == OwnEdges(st) && OwnEdges(st)[..0] == [];
  }

  // ---- The compiled graph ----

  /** Everything the run of the compiled graph depends on. */
  ghost predicate Realizes(p: seq<Stage>, g: Graph)
    requires p != []
  {
    && g.entry == MainId(p[0])
    && (forall i :: 0 <= i < |p| ==> HasNodes(g.nodes, p[i]))
    && (forall i {:trigger FirstExit(p, i)} {:trigger OutEdges(g.edges, MainId(p[i]))} ::
          0 <= i < |p| ==>
            OutEdges(g.edges, MainId(p[i])) != [] && OutEdges(g.edges, MainId(p[i]))[0] == FirstExit(p, i))
  }

  function FirstExit(p: seq<Stage>, i: nat): Edge
    requires i < |p|
  {
    if p[i].Loop? then LoopEdge(p[i])
    else if i + 1 < |p| then Link(MainId(p[i]), p[i + 1])
    else Direct(MainId(p[i]), End)
  }

  lemma {:induction false} GoodEdgesValidate(nodes: map<string, Node>, edges: seq<Edge>)
    requires AllGood(nodes, edges)
    ensures FirstEdgeError(nodes, edges).None?
  {
    if edges != [] {
      assert edges[0] in edges;
      if edges[0].Parallel? {
        KnownTargetsValidate(nodes, edges[0].targets);
      }
      GoodEdgesValidate(nodes, edges[1..]);
    }
  }

  lemma {:induction false} KnownTargetsValidate(nodes: map<string, Node>, targets: seq<Target>)
    requires forall t :: t in targets ==> KnownTarget(nodes, t)
    ensures UnknownAmong(nodes, targets).None?
  {
    if targets != [] {
      assert targets[0] in targets;
      KnownTargetsValidate(nodes, targets[1..]);
    }
  }

  lemma {:induction false} FirstExits(p: seq<Stage>, b: Blueprint)
    requires p != [] && Inv(p, b)
    ensures forall i :: 0 <= i < |p| ==>
              var out := OutEdges(Closed(b).edges, MainId(p[i])); out != [] && out[0] == FirstExit(p, i)
  {
    forall i | 0 <= i < |p|
      ensures var out := OutEdges(Closed(b).edges, MainId(p[i])); out != [] && out[0] == FirstExit(p, i)
    {
      assert OutEdges(b.edges, MainId(p[|p| - 1])) == Exits(p, |p| - 1);
      assert OutEdges(b.edges, MainId(p[i])) == Exits(p, i);
      FirstExitOf(p, b, i);
    }
  }

  lemma FirstExitOf(p: seq<Stage>, b: Blueprint, i: nat)
    requires i < |p| && b.last == Some(MainId(p[|p| - 1]))
    requires OutEdges(b.edges, MainId(p[i])) == Exits(p, i)
    requires OutEdges(b.edges, MainId(p[|p| - 1])) == Exits(p, |p| - 1)
    requires i < |p| - 1 ==> MainId(p[i]) != MainId(p[|p| - 1])
    ensures var out := OutEdges(Closed(b).edges, MainId(p[i])); out != [] && out[0] == FirstExit(p, i)
  {
    OutEdgesSnoc(b.edges, Direct(MainId(p[|p| - 1]), End), MainId(p[i]));
    if i + 1 < |p| {
      assert Exits(p, i) == OwnEdges(p[i]) + [Link(MainId(p[i]), p[i + 1])];
    }
  }

  lemma {:induction false} ValidatesAs(p: seq<Stage>, b: Blueprint)
    requires p != [] && MainId(p[0]) != "" && Inv(p, b)
    ensures Validate(b).None?
  {
    assert HasNodes(b.nodes, p[0]);
    GoodEdgesValidate(b.nodes, b.edges);
  }

  lemma {:induction false} CompileSucceeds(p: seq<Stage>, schema: Schema, maxTurns: int)
    requires WellFormed(p)
    ensures var r := Compiled(Build(p).b, schema, maxTurns);
            && r.Ok? && Realizes(p, r.value) && r.value.schema == schema && r.value.maxTurns == maxTurns
            && (forall id :: id in r.value.nodes ==> id in AllIds(p))
  {
    BuildSucceeds(p);
    var b := Build(p).b;
    ValidatesAs(p, b);
    FirstExits(p, b);
  }
}
