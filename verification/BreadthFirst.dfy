/** Beam search over thoughts as a function of its state, and its bounds (src/orchestra/reasoning/tot.py). */
module BreadthFirst {
  import opened Wrappers
  import opened ThoughtTree
  import opened DepthFirst

  datatype Beam = Beam(nodes: seq<ThoughtNode>, frontier: seq<nat>, best: Option<nat>, gens: nat, evals: nat)

  ghost predicate ValidBeam(s: Beam) {
    InRange(s.nodes, s.frontier) && (s.best.Some? ==> s.best.value < |s.nodes|)
  }

  function Root(problem: string): Beam {
    Beam([ThoughtNode(problem, 1.0, 0, None, [], false)], [0], None, 0, 0)
  }

  /** Children of every frontier node in turn; a generation that raises is skipped. */
  function Generated(cfg: Settings, oracle: Oracle, nodes: seq<ThoughtNode>, frontier: seq<nat>, gens: nat)
    : (r: seq<ThoughtNode>)
    requires InRange(nodes, frontier)
    ensures |r| >= |nodes|
  {
    if frontier == [] then nodes else
    var n := |frontier| - 1;
    var grown := Generated(cfg, oracle, nodes, frontier[..n], gens);
    match oracle.generate(gens + n)
    case None => grown
    case Some(raw) => WithChildren(grown, frontier[n], ParseThoughts(raw, cfg.breadth))
  }

  /** The survivors of a level, best first. */
  function Survivors(nodes: seq<ThoughtNode>, ids: seq<nat>): seq<nat>
    requires InRange(nodes, ids)
  {
    SortBy(Select(nodes, ids, false), MinusValueOf(nodes))
  }

  /** One level; false when the loop is left. */
  function Level(cfg: Settings, oracle: Oracle, s: Beam): (Beam, bool)
    requires ValidBeam(s)
  {
    var grown, gens := Generated(cfg, oracle, s.nodes, s.frontier, s.gens), s.gens + |s.frontier|;
    if |grown| == |s.nodes| then (s.(nodes := grown, gens := gens), false) else
    var (nodes, evals) := Scored(grown, |s.nodes|, |grown|, oracle, s.evals);
    var ids := Ids(|s.nodes|, |nodes|);
    var best := BestTerminal(nodes, s.best, ids);
    if best.Some? then (Beam(nodes, s.frontier, best, gens, evals), false) else
    var kept := Take(Survivors(nodes, ids), cfg.beam);
    (Beam(nodes, kept, None, gens, evals), kept != [])
  }

  // ---- What a level adds ----

  /** r is nodes with children of frontier nodes at the end. */
  ghost predicate Layered(nodes: seq<ThoughtNode>, depth: nat, r: seq<ThoughtNode>) {
    && |nodes| <= |r|
    && (forall j :: 0 <= j < |nodes| ==>
          r[j].thought == nodes[j].thought && r[j].depth == nodes[j].depth && r[j].value == nodes[j].value &&
          r[j].isTerminal == nodes[j].isTerminal)
    && (forall j :: |nodes| <= j < |r| ==> r[j].depth == depth)
  }

  ghost predicate AllAt(nodes: seq<ThoughtNode>, ids: seq<nat>, depth: nat) {
    forall k :: 0 <= k < |ids| ==> ids[k] < |nodes| && nodes[ids[k]].depth == depth
  }

  lemma {:induction false} OneParent(
    nodes: seq<ThoughtNode>, grown: seq<ThoughtNode>, i: nat, thoughts: seq<string>, depth: nat)
    requires IsTree(grown) && Layered(nodes, depth + 1, grown) && i < |nodes| && nodes[i].depth == depth
    ensures var r := WithChildren(grown, i, thoughts);
            IsTree(r) && Layered(nodes, depth + 1, r)
  {
    ChildrenAdded(grown, i, thoughts);
    TreeGrows(grown, i, WithChildren(grown, i, thoughts));
  }

  lemma {:induction false} GeneratedLayers(
    cfg: Settings, oracle: Oracle, nodes: seq<ThoughtNode>, frontier: seq<nat>, gens: nat, depth: nat)
    requires AllAt(nodes, frontier, depth) && IsTree(nodes)
    ensures InRange(nodes, frontier)
    ensures var r := Generated(cfg, oracle, nodes, frontier, gens); IsTree(r) && Layered(nodes, depth + 1, r)
    decreases |frontier|
  {
    if frontier != [] {
      var n := |frontier| - 1;
      GeneratedLayers(cfg, oracle, nodes, frontier[..n], gens, depth);
      if oracle.generate(gens + n).Some? {
        OneParent(nodes, Generated(cfg, oracle, nodes, frontier[..n], gens), frontier[n],
                  ParseThoughts(oracle.generate(gens + n).value, cfg.breadth), depth);
      }
    }
  }

  lemma {:induction false} GeneratedSize(
    cfg: Settings, oracle: Oracle, nodes: seq<ThoughtNode>, frontier: seq<nat>, gens: nat)
    requires InRange(nodes, frontier)
    ensures |Generated(cfg, oracle, nodes, frontier, gens)| <= |nodes| + cfg.breadth * |frontier|
    decreases |frontier|
  {
    if frontier != [] {
      var n := |frontier| - 1;
      GeneratedSize(cfg, oracle, nodes, frontier[..n], gens);
      Distribute(cfg.breadth, n, 1);
      if oracle.generate(gens + n).Some? {
        ParsedThoughts(oracle.generate(gens + n).value, cfg.breadth);
      }
    }
  }

  lemma ScoringKeepsTree(nodes: seq<ThoughtNode>, r: seq<ThoughtNode>)
    requires IsTree(nodes) && |r| == |nodes| && forall j :: 0 <= j < |nodes| ==> SamePlace(r[j], nodes[j])
    ensures IsTree(r)
  {
    forall j: nat, c: nat | j < |r| ensures c in r[j].children <==> IsChild(r, c, j) {
      assert c in nodes[j].children <==> IsChild(nodes, c, j);
    }
  }

  // ---- Levels ----

  /** The level loop from depth on. */
  function Levels(cfg: Settings, oracle: Oracle, s: Beam, depth: nat): (r: Beam)
    requires ValidBeam(s)
    ensures ValidBeam(r)
    decreases cfg.maxDepth + 1 - depth
  {
    if depth > cfg.maxDepth then s else
    LevelKeepsValid(cfg, oracle, s);
    var (t, go) := Level(cfg, oracle, s);
    if go then Levels(cfg, oracle, t, depth + 1) else t
  }

  lemma LevelKeepsValid(cfg: Settings, oracle: Oracle, s: Beam)
    requires ValidBeam(s)
    ensures ValidBeam(Level(cfg, oracle, s).0)
  {
    var grown := Generated(cfg, oracle, s.nodes, s.frontier, s.gens);
    var nodes := Scored(grown, |s.nodes|, |grown|, oracle, s.evals).0;
    SurvivorsAmong(nodes, Ids(|s.nodes|, |nodes|));
  }

  lemma SurvivorsAmong(nodes: seq<ThoughtNode>, ids: seq<nat>)
    requires InRange(nodes, ids)
    ensures var s := Survivors(nodes, ids); forall k :: 0 <= k < |s| ==> s[k] in ids && s[k] < |nodes|
    ensures |Survivors(nodes, ids)| <= |ids|
  {
    var chosen := Select(nodes, ids, false);
    SortSorts(chosen, MinusValueOf(nodes));
    forall k | 0 <= k < |Survivors(nodes, ids)| ensures Survivors(nodes, ids)[k] in ids {
      assert Survivors(nodes, ids)[k] in chosen;
    }
  }

  function Dropped(nodes: seq<ThoughtNode>, ids: seq<nat>, beam: nat): seq<nat>
    requires InRange(nodes, ids)
  {
    var all := Survivors(nodes, ids);
    if |all| <= beam then [] else all[beam..]
  }

  lemma TakeAndRest<T>(s: seq<T>, k: nat)
    ensures |Take(s, k)| <= k && Take(s, k) + (if |s| <= k then [] else s[k..]) == s
  {
  }

  /** What the beam keeps and what it drops are together the survivors. */
  lemma {:induction false} BeamSplitsSurvivors(nodes: seq<ThoughtNode>, ids: seq<nat>, beam: nat)
    requires InRange(nodes, ids)
    ensures var kept := Take(Survivors(nodes, ids), beam);
            |kept| <= beam && multiset(kept + Dropped(nodes, ids, beam)) == multiset(Select(nodes, ids, false))
  {
    var all := Survivors(nodes, ids);
    assert multiset(all) == multiset(Select(nodes, ids, false)) by {
      SortSorts(Select(nodes, ids, false), MinusValueOf(nodes));
    }
    TakeAndRest(all, beam);
  }

  /** No node dropped from the beam is worth more than one kept. */
  lemma BeamKeepsBest(nodes: seq<ThoughtNode>, ids: seq<nat>, beam: nat, i: nat, j: nat)
    requires InRange(nodes, ids)
    requires i < |Take(Survivors(nodes, ids), beam)| && j < |Dropped(nodes, ids, beam)|
    ensures var kept, dropped := Take(Survivors(nodes, ids), beam)[i], Dropped(nodes, ids, beam)[j];
            kept < |nodes| && dropped < |nodes| && nodes[dropped].value <= nodes[kept].value
  {
    var all := Survivors(nodes, ids);
    SurvivorsAmong(nodes, ids);
    SortSorts(Select(nodes, ids, false), MinusValueOf(nodes));
    assert MinusValueOf(nodes)(all[i]) <= MinusValueOf(nodes)(all[beam + j]);
  }

  /** Before the level at this depth: a tree above it without terminals, its deepest nodes in the beam. */
  ghost predicate LevelStart(cfg: Settings, s: Beam, depth: nat) {
    && depth >= 1 && IsTree(s.nodes) && s.best.None? && AllAt(s.nodes, s.frontier, depth - 1) && s.frontier != []
    && (forall j :: 0 <= j < |s.nodes| ==> !s.nodes[j].isTerminal && s.nodes[j].depth < depth)
    && (if depth == 1 then |s.frontier| == 1 else |s.frontier| <= cfg.beam)
  }

  /** After a level that ends the loop: the best is the first best of that level's terminals, the only ones. */
  ghost predicate LevelEnd(s: Beam, depth: nat) {
    && IsTree(s.nodes) && ValidBeam(s)
    && (forall j :: 0 <= j < |s.nodes| ==>
          s.nodes[j].depth <= depth && (s.nodes[j].isTerminal ==> s.nodes[j].depth == depth))
    && (s.best.None? ==> forall j :: 0 <= j < |s.nodes| ==> !s.nodes[j].isTerminal)
    && (s.best.Some? ==>
          && s.nodes[s.best.value].isTerminal
          && forall j :: 0 <= j < |s.nodes| && s.nodes[j].isTerminal ==>
               s.nodes[j].value <= s.nodes[s.best.value].value)
  }

  lemma {:induction false} BestAmongTerminals(nodes: seq<ThoughtNode>, ids: seq<nat>)
    requires InRange(nodes, ids)
    ensures var best := BestTerminal(nodes, None, ids);
            && (best.Some? ==> nodes[best.value].isTerminal && best.value in ids)
            && forall x: nat :: x in ids && x < |nodes| && nodes[x].isTerminal ==>
                 best.Some? && nodes[x].value <= nodes[best.value].value
    decreases |ids|
  {
    if ids != [] {
      BestAmongTerminals(nodes, ids[..|ids| - 1]);
    }
  }

  /** The candidates of a level, scored. */
  ghost predicate Candidates(s: Beam, depth: nat, nodes: seq<ThoughtNode>) {
    && IsTree(nodes) && |s.nodes| <= |nodes|
    && (forall j :: 0 <= j < |s.nodes| ==> nodes[j].depth < depth && !nodes[j].isTerminal)
    && (forall j :: |s.nodes| <= j < |nodes| ==> nodes[j].depth == depth)
  }

  lemma LevelCandidates(cfg: Settings, oracle: Oracle, s: Beam, depth: nat)
    requires LevelStart(cfg, s, depth)
    ensures InRange(s.nodes, s.frontier)
    ensures var grown := Generated(cfg, oracle, s.nodes, s.frontier, s.gens);
            && Candidates(s, depth, grown)
            && Candidates(s, depth, Scored(grown, |s.nodes|, |grown|, oracle, s.evals).0)
  {
    GeneratedLayers(cfg, oracle, s.nodes, s.frontier, s.gens, depth - 1);
    var grown := Generated(cfg, oracle, s.nodes, s.frontier, s.gens);
    ScoredKeeps(grown, |s.nodes|, |grown|, oracle, s.evals);
    ScoringKeepsTree(grown, Scored(grown, |s.nodes|, |grown|, oracle, s.evals).0);
  }

  lemma IdsCover(a: nat, b: nat)
    requires a <= b
    ensures forall j: nat :: j in Ids(a, b) <==> a <= j < b
  {
    forall j: nat | a <= j < b ensures j in Ids(a, b) {
      assert Ids(a, b)[j - a] == j;
    }
  }

  lemma LevelStep(cfg: Settings, oracle: Oracle, s: Beam, depth: nat)
    requires LevelStart(cfg, s, depth) && ValidBeam(s)
    ensures var (t, go) := Level(cfg, oracle, s);
            if go then LevelStart(cfg, t, depth + 1) else LevelEnd(t, depth)
  {
    LevelCandidates(cfg, oracle, s, depth);
    var grown := Generated(cfg, oracle, s.nodes, s.frontier, s.gens);
    if |grown| > |s.nodes| {
      var nodes := Scored(grown, |s.nodes|, |grown|, oracle, s.evals).0;
      var evals := Scored(grown, |s.nodes|, |grown|, oracle, s.evals).1;
      LevelOutcome(cfg, s, depth, nodes, Ids(|s.nodes|, |nodes|), s.gens + |s.frontier|, evals);
    }
  }

  lemma LevelOutcome(cfg: Settings, s: Beam, depth: nat, nodes: seq<ThoughtNode>, ids: seq<nat>, gens: nat, evals: nat)
    requires Candidates(s, depth, nodes) && depth >= 1 && ids == Ids(|s.nodes|, |nodes|) && InRange(nodes, s.frontier)
    ensures var best := BestTerminal(nodes, None, ids);
            var kept := Take(Survivors(nodes, ids), cfg.beam);
            && (best.Some? ==> LevelEnd(Beam(nodes, s.frontier, best, gens, evals), depth))
            && (best.None? && kept == [] ==> LevelEnd(Beam(nodes, kept, None, gens, evals), depth))
            && (best.None? && kept != [] ==> LevelStart(cfg, Beam(nodes, kept, None, gens, evals), depth + 1))
  {
    BestAmongTerminals(nodes, ids);
    IdsCover(|s.nodes|, |nodes|);
    SurvivorsAmong(nodes, ids);
    var kept := Take(Survivors(nodes, ids), cfg.beam);
    forall k | 0 <= k < |kept| ensures kept[k] < |nodes| && nodes[kept[k]].depth == depth {
      assert kept[k] == Survivors(nodes, ids)[k] && kept[k] in ids;
    }
    forall j: nat | j < |nodes| && nodes[j].isTerminal ensures j in ids {
    }
  }

  // ---- Calls ----

  /** At most the generations made before this level, and breadth evaluations for each of them. */
  ghost predicate CallBound(cfg: Settings, s: Beam, levels: nat) {
    s.gens <= (if levels == 0 then 0 else 1 + cfg.beam * (levels - 1)) && s.evals <= cfg.breadth * s.gens
  }

  lemma LevelCalls(cfg: Settings, oracle: Oracle, s: Beam, depth: nat)
    requires LevelStart(cfg, s, depth) && ValidBeam(s) && CallBound(cfg, s, depth - 1)
    ensures CallBound(cfg, Level(cfg, oracle, s).0, depth)
  {
    var grown, t := Generated(cfg, oracle, s.nodes, s.frontier, s.gens), Level(cfg, oracle, s).0;
    GeneratedSize(cfg, oracle, s.nodes, s.frontier, s.gens);
    ScoredKeeps(grown, |s.nodes|, |grown|, oracle, s.evals);
    assert t.gens == s.gens + |s.frontier| && t.evals <= s.evals + cfg.breadth * |s.frontier|;
    Distribute(cfg.breadth, s.gens, |s.frontier|);
    if depth >= 2 {
      Distribute(cfg.beam, depth - 2, 1);
    }
  }

  /** The search stopped at some level from this one on, or went through all of them. */
  ghost predicate EndsFrom(cfg: Settings, s: Beam, depth: nat) {
    (exists d :: depth <= d <= cfg.maxDepth && LevelEnd(s, d)) || LevelStart(cfg, s, cfg.maxDepth + 1)
  }

  lemma EndsLater(cfg: Settings, s: Beam, depth: nat)
    requires EndsFrom(cfg, s, depth + 1)
    ensures EndsFrom(cfg, s, depth)
  {
  }

  lemma {:induction false} LevelsResult(cfg: Settings, oracle: Oracle, s: Beam, depth: nat)
    requires LevelStart(cfg, s, depth) && ValidBeam(s) && CallBound(cfg, s, depth - 1) && depth <= cfg.maxDepth
    ensures var r := Levels(cfg, oracle, s, depth);
            && CallBound(cfg, r, cfg.maxDepth)
            && EndsFrom(cfg, r, depth)
    decreases cfg.maxDepth - depth
  {
    LevelStep(cfg, oracle, s, depth);
    LevelCalls(cfg, oracle, s, depth);
    LevelKeepsValid(cfg, oracle, s);
    var (t, go) := Level(cfg, oracle, s);
    if go && depth < cfg.maxDepth {
      LevelsResult(cfg, oracle, t, depth + 1);
      EndsLater(cfg, Levels(cfg, oracle, t, depth + 1), depth);
    } else {
      BoundGrows(cfg, t, depth, cfg.maxDepth);
      LastLevel(cfg, t, go, depth);
    }
  }

  lemma LastLevel(cfg: Settings, t: Beam, go: bool, depth: nat)
    requires depth <= cfg.maxDepth && (go ==> depth == cfg.maxDepth)
    requires if go then LevelStart(cfg, t, depth + 1) else LevelEnd(t, depth)
    ensures EndsFrom(cfg, t, depth)
  {
  }

  lemma BoundGrows(cfg: Settings, s: Beam, levels: nat, more: nat)
    requires 1 <= levels <= more && CallBound(cfg, s, levels)
    ensures CallBound(cfg, s, more)
  {
    Distribute(cfg.beam, levels - 1, more - levels);
  }

  // ---- The result ----

  /** max over the frontier: the first of greatest value. */
  function MaxOf(nodes: seq<ThoughtNode>, ids: seq<nat>): nat
    requires InRange(nodes, ids) && ids != []
  {
    if |ids| == 1 then ids[0] else
    var m, i := MaxOf(nodes, ids[..|ids| - 1]), ids[|ids| - 1];
    if m < |nodes| && nodes[i].value > nodes[m].value then i else m
  }

  lemma {:induction false} MaxOfIsMax(nodes: seq<ThoughtNode>, ids: seq<nat>)
    requires InRange(nodes, ids) && ids != []
    ensures MaxOf(nodes, ids) in ids && MaxOf(nodes, ids) < |nodes|
    ensures forall x: nat :: x in ids && x < |nodes| ==> nodes[x].value <= nodes[MaxOf(nodes, ids)].value
    decreases |ids|
  {
    if |ids| > 1 {
      MaxOfIsMax(nodes, ids[..|ids| - 1]);
      assert ids == ids[..|ids| - 1] + [ids[|ids| - 1]];
    }
  }

  /** The node returned, and the nodes as they are then; the best leaf is marked terminal. */
  function Returned(s: Beam): (Option<nat>, seq<ThoughtNode>)
    requires ValidBeam(s)
  {
    if s.best.Some? then (s.best, s.nodes)
    else if s.frontier == [] then (None, s.nodes)
    else
      var leaf := MaxOf(s.nodes, s.frontier);
      if leaf < |s.nodes| then (Some(leaf), s.nodes[leaf := s.nodes[leaf].(isTerminal := true)]) else (None, s.nodes)
  }

  /**
   Beam search: at most 1 + beam * (max_depth - 1) generations and breadth evaluations for each; a tree
   whose chains have one thought per level; the terminal returned is of greatest value in the tree, and
   there are terminals only on the last level reached.
   */
  lemma BeamSearchResult(cfg: Settings, oracle: Oracle, problem: string)
    requires cfg.maxDepth >= 1 && cfg.beam >= 1
    ensures ValidBeam(Root(problem))
    ensures var r := Levels(cfg, oracle, Root(problem), 1);
            && r.gens <= 1 + cfg.beam * (cfg.maxDepth - 1) && r.evals <= cfg.breadth * r.gens
            && IsTree(r.nodes)
            && (forall i :: 0 <= i < |r.nodes| ==>
                  |Chain(r.nodes, i)| == r.nodes[i].depth + 1 && r.nodes[i].depth <= cfg.maxDepth)
            && (r.best.Some? ==>
                  && r.nodes[r.best.value].isTerminal
                  && forall j :: 0 <= j < |r.nodes| ==>
                       && r.nodes[j].depth <= r.nodes[r.best.value].depth
                       && (r.nodes[j].isTerminal ==> r.nodes[j].depth == r.nodes[r.best.value].depth &&
                                                     r.nodes[j].value <= r.nodes[r.best.value].value))
            && (r.best.None? ==> forall j :: 0 <= j < |r.nodes| ==> !r.nodes[j].isTerminal)
  {
    LevelsResult(cfg, oracle, Root(problem), 1);
    var r := Levels(cfg, oracle, Root(problem), 1);
    forall i: nat | i < |r.nodes| ensures |Chain(r.nodes, i)| == r.nodes[i].depth + 1 {
      ChainLength(r.nodes, i);
    }
  }

  /** Without a terminal, the leaf returned is of greatest value in the last beam. */
  lemma BestLeafReturned(s: Beam)
    requires ValidBeam(s) && s.best.None?
    ensures var (leaf, nodes) := Returned(s);
            if s.frontier == [] then leaf.None?
            else leaf.Some? && leaf.value in s.frontier && leaf.value < |nodes| && nodes[leaf.value].isTerminal &&
                 forall x: nat :: x in s.frontier && x < |s.nodes| ==> s.nodes[x].value <= s.nodes[leaf.value].value
  {
    if s.frontier != [] {
      MaxOfIsMax(s.nodes, s.frontier);
    }
  }
}
