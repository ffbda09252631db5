/** Depth-first thought search as a function of its state, and its bounds (src/orchestra/reasoning/tot.py). */
module DepthFirst {
  import opened Wrappers
  import opened ThoughtTree

  /** The variables of the loop; seen lists the leaves popped and the terminal nodes found so far. */
  datatype Search = Search(
    nodes: seq<ThoughtNode>, stack: seq<nat>, best: Option<nat>, gens: nat, evals: nat, seen: seq<nat>)

  datatype Status = Going | Done | Raised

  ghost predicate Valid(s: Search) {
    && InRange(s.nodes, s.stack) && InRange(s.nodes, s.seen)
    && (s.best.Some? ==> s.best.value < |s.nodes|)
  }

  function Start(problem: string): Search {
    Search([ThoughtNode(problem, 1.0, 0, None, [], false)], [0], None, 0, 0, [])
  }

  /** One generation, with its children evaluated; None when the generation raises. */
  function Expanded(cfg: Settings, oracle: Oracle, nodes: seq<ThoughtNode>, i: nat, gens: nat, evals: nat)
    : (r: Option<(seq<ThoughtNode>, nat)>)
    requires i < |nodes|
    ensures r.Some? ==> |nodes| <= |r.value.0| <= |nodes| + cfg.breadth
  {
    match oracle.generate(gens)
    case None => None
    case Some(raw) =>
      ParsedThoughts(raw, cfg.breadth);
      var grown := WithChildren(nodes, i, ParseThoughts(raw, cfg.breadth));
      Some(Scored(grown, |nodes|, |grown|, oracle, evals))
  }

  /** Popping a leaf: it becomes the best if it beats the best so far. */
  function LeafStep(s: Search, i: nat, rest: seq<nat>): Search
    requires Valid(s) && i < |s.nodes|
  {
    if s.best.None? || s.nodes[i].value > s.nodes[s.best.value].value
    then Search(s.nodes[i := s.nodes[i].(isTerminal := true)], rest, Some(i), s.gens, s.evals, s.seen + [i])
    else s.(stack := rest, seen := s.seen + [i])
  }

  /** One iteration of the loop. */
  function Step(cfg: Settings, oracle: Oracle, s: Search): (r: (Search, Status))
    requires Valid(s) && s.stack != []
  {
    var i, rest := s.stack[|s.stack| - 1], s.stack[..|s.stack| - 1];
    if s.nodes[i].depth >= cfg.maxDepth || s.nodes[i].isTerminal then (LeafStep(s, i, rest), Going) else
    match Expanded(cfg, oracle, s.nodes, i, s.gens, s.evals)
    case None => (s.(stack := rest, gens := s.gens + 1), Raised)
    case Some((nodes, evals)) =>
      var ids := Ids(|s.nodes|, |nodes|);
      var best, seen := BestTerminal(nodes, s.best, ids), s.seen + Select(nodes, ids, true);
      if best.Some? then (Search(nodes, rest, best, s.gens + 1, evals, seen), Done)
      else
        var kids := SortBy(Select(nodes, ids, false), ValueOf(nodes));
        (Search(nodes, rest + kids, None, s.gens + 1, evals, seen), Going)
  }

  // ---- What growing and scoring leave alone ----

  /** Same node, but perhaps for its value and terminal mark. */
  predicate SamePlace(n: ThoughtNode, m: ThoughtNode) {
    n.thought == m.thought && n.depth == m.depth && n.parent == m.parent && n.children == m.children
  }

  lemma {:induction false} ScoredKeeps(nodes: seq<ThoughtNode>, a: nat, b: nat, oracle: Oracle, evals: nat)
    requires a <= b <= |nodes|
    ensures var (r, n) := Scored(nodes, a, b, oracle, evals);
            && |r| == |nodes| && evals <= n <= evals + (b - a)
            && (forall j :: 0 <= j < |nodes| ==> SamePlace(r[j], nodes[j]))
            && (forall j :: 0 <= j < a || b <= j < |nodes| ==> r[j] == nodes[j])
    decreases b
  {
    if a < b {
      ScoredKeeps(nodes, a, b - 1, oracle, evals);
    }
  }

  lemma {:induction false} ChildrenAdded(nodes: seq<ThoughtNode>, i: nat, thoughts: seq<string>)
    requires i < |nodes|
    ensures var r := WithChildren(nodes, i, thoughts);
            && r[i] == nodes[i].(children := nodes[i].children + Ids(|nodes|, |r|))
            && (forall j :: 0 <= j < |nodes| && j != i ==> r[j] == nodes[j])
            && (forall j :: |nodes| <= j < |r| ==>
                  r[j] == ThoughtNode(thoughts[j - |nodes|], 0.5, nodes[i].depth + 1, Some(i), [], false))
    decreases |thoughts|
  {
    if thoughts != [] {
      var init := thoughts[..|thoughts| - 1];
      ChildrenAdded(nodes, i, init);
      var n, m := |nodes|, |nodes| + |init|;
      assert Ids(n, m + 1) == Ids(n, m) + [m];
      assert nodes[i].children + Ids(n, m) + [m] == nodes[i].children + Ids(n, m + 1);
    } else {
      assert nodes[i].children + Ids(|nodes|, |nodes|) == nodes[i].children;
    }
  }

  /** r is nodes with at most breadth scored children of node i at the end. */
  ghost predicate Grows(nodes: seq<ThoughtNode>, i: nat, r: seq<ThoughtNode>) {
    && i < |nodes| <= |r|
    && (forall j :: 0 <= j < |nodes| && j != i ==> r[j] == nodes[j])
    && r[i] == nodes[i].(children := nodes[i].children + Ids(|nodes|, |r|))
    && (forall j :: |nodes| <= j < |r| ==>
          r[j].depth == nodes[i].depth + 1 && r[j].parent == Some(i) && r[j].children == [])
  }

  lemma ExpandedGrows(cfg: Settings, oracle: Oracle, nodes: seq<ThoughtNode>, i: nat, gens: nat, evals: nat)
    requires i < |nodes| && Expanded(cfg, oracle, nodes, i, gens, evals).Some?
    ensures var (r, n) := Expanded(cfg, oracle, nodes, i, gens, evals).value;
            Grows(nodes, i, r) && |r| <= |nodes| + cfg.breadth && n <= evals + (|r| - |nodes|)
  {
    var thoughts := ParseThoughts(oracle.generate(gens).value, cfg.breadth);
    ParsedThoughts(oracle.generate(gens).value, cfg.breadth);
    ChildrenAdded(nodes, i, thoughts);
    var grown := WithChildren(nodes, i, thoughts);
    ScoredKeeps(grown, |nodes|, |grown|, oracle, evals);
  }

  lemma LinksGrow(nodes: seq<ThoughtNode>, i: nat, r: seq<ThoughtNode>)
    requires Linked(nodes) && Grows(nodes, i, r)
    requires forall j :: 0 <= j < |nodes| && nodes[j].parent.Some? ==> nodes[j].parent.value < |nodes|
    ensures Linked(r)
  {
    var ids := Ids(|nodes|, |r|);
    assert forall c: nat :: c in ids <==> |nodes| <= c < |r| by {
      forall c: nat | |nodes| <= c < |r| ensures c in ids {
        assert ids[c - |nodes|] == c;
      }
    }
    forall j: nat, c: nat | j < |r| ensures c in r[j].children <==> IsChild(r, c, j) {
      if j < |nodes| {
        assert c in nodes[j].children <==> IsChild(nodes, c, j);
        assert c in r[j].children <==> c in nodes[j].children || (j == i && c in ids);
      }
    }
  }

  lemma TreeGrows(nodes: seq<ThoughtNode>, i: nat, r: seq<ThoughtNode>)
    requires IsTree(nodes) && Grows(nodes, i, r)
    ensures IsTree(r)
  {
    LinksGrow(nodes, i, r);
    forall j | 0 < j < |r|
      ensures r[j].parent.Some? && r[j].parent.value < j && r[j].depth == r[r[j].parent.value].depth + 1
    {
      if j < |nodes| {
        assert r[j].parent == nodes[j].parent && r[j].depth == nodes[j].depth;
      }
    }
  }

  // ---- Termination for every oracle ----

  /** Nodes of a full tree of this height, counting leaves as given: 1 for all nodes, 0 for inner nodes only. */
  function Full(breadth: nat, height: nat, leaf: nat): nat {
    if height == 0 then leaf else 1 + breadth * Full(breadth, height - 1, leaf)
  }

  function Height(cfg: Settings, n: ThoughtNode): nat {
    if n.depth < cfg.maxDepth then cfg.maxDepth - n.depth else 0
  }

  /** Everything the stack can still lead to. */
  function Work(cfg: Settings, nodes: seq<ThoughtNode>, stack: seq<nat>, leaf: nat): nat
    requires InRange(nodes, stack)
  {
    if stack == [] then 0 else
    Work(cfg, nodes, stack[..|stack| - 1], leaf) + Full(cfg.breadth, Height(cfg, nodes[stack[|stack| - 1]]), leaf)
  }

  lemma {:induction false} WorkKept(
    cfg: Settings, nodes: seq<ThoughtNode>, r: seq<ThoughtNode>, stack: seq<nat>, leaf: nat)
    requires InRange(nodes, stack) && |nodes| <= |r| && forall j :: 0 <= j < |nodes| ==> r[j].depth == nodes[j].depth
    ensures InRange(r, stack) && Work(cfg, r, stack, leaf) == Work(cfg, nodes, stack, leaf)
    decreases |stack|
  {
    if stack != [] {
      WorkKept(cfg, nodes, r, stack[..|stack| - 1], leaf);
    }
  }

  lemma OneMore(n: nat, f: nat)
    ensures (n + 1) * f == n * f + f
  {
  }

  lemma {:induction false} WorkOfChildren(
    cfg: Settings, nodes: seq<ThoughtNode>, stack: seq<nat>, kids: seq<nat>, depth: nat, leaf: nat)
    requires InRange(nodes, stack) && InRange(nodes, kids) && depth < cfg.maxDepth
    requires forall k :: 0 <= k < |kids| ==> nodes[kids[k]].depth == depth + 1
    ensures InRange(nodes, stack + kids)
    ensures Work(cfg, nodes, stack + kids, leaf) ==
            Work(cfg, nodes, stack, leaf) + |kids| * Full(cfg.breadth, cfg.maxDepth - depth - 1, leaf)
    decreases |kids|
  {
    if kids == [] {
      assert stack + kids == stack;
    } else {
      var init := kids[..|kids| - 1];
      WorkOfChildren(cfg, nodes, stack, init, depth, leaf);
      assert (stack + kids)[..|stack + kids| - 1] == stack + init;
      OneMore(|init|, Full(cfg.breadth, cfg.maxDepth - depth - 1, leaf));
    }
  }

  lemma TimesMonotone(a: nat, b: nat, f: nat)
    requires a <= b
    ensures a * f <= b * f
  {
  }

  /** The children that go on the stack: new, one level down, at most breadth of them. */
  lemma ViableChildren(cfg: Settings, nodes: seq<ThoughtNode>, i: nat, r: seq<ThoughtNode>)
    requires Grows(nodes, i, r) && |r| <= |nodes| + cfg.breadth
    ensures var ids := Ids(|nodes|, |r|);
            var kids := SortBy(Select(r, ids, false), ValueOf(r));
            && InRange(r, kids) && |kids| <= cfg.breadth && Ascending(kids, ValueOf(r))
            && forall k :: 0 <= k < |kids| ==> |nodes| <= kids[k] && r[kids[k]].depth == nodes[i].depth + 1
  {
    var ids := Ids(|nodes|, |r|);
    var chosen := Select(r, ids, false);
    var kids := SortBy(chosen, ValueOf(r));
    SortSorts(chosen, ValueOf(r));
    forall k | 0 <= k < |kids| ensures |nodes| <= kids[k] < |r| {
      assert kids[k] in chosen && kids[k] in ids;
    }
  }

  lemma WorkSplits(cfg: Settings, nodes: seq<ThoughtNode>, stack: seq<nat>, leaf: nat)
    requires InRange(nodes, stack) && stack != []
    ensures Work(cfg, nodes, stack, leaf) ==
            Work(cfg, nodes, stack[..|stack| - 1], leaf) +
            Full(cfg.breadth, Height(cfg, nodes[stack[|stack| - 1]]), leaf)
  {
  }

  /** Replacing a node by its viable children leaves less to do. */
  lemma LessWork(cfg: Settings, nodes: seq<ThoughtNode>, rest: seq<nat>, i: nat, r: seq<ThoughtNode>, leaf: nat)
    requires Grows(nodes, i, r) && |r| <= |nodes| + cfg.breadth && InRange(nodes, rest) && nodes[i].depth < cfg.maxDepth
    ensures var kids := SortBy(Select(r, Ids(|nodes|, |r|), false), ValueOf(r));
            && InRange(r, rest + kids)
            && Work(cfg, r, rest + kids, leaf) <
               Work(cfg, nodes, rest, leaf) + Full(cfg.breadth, Height(cfg, nodes[i]), leaf)
  {
    WorkKept(cfg, nodes, r, rest, leaf);
    ViableChildren(cfg, nodes, i, r);
    var kids := SortBy(Select(r, Ids(|nodes|, |r|), false), ValueOf(r));
    WorkOfChildren(cfg, r, rest, kids, nodes[i].depth, leaf);
    TimesMonotone(|kids|, cfg.breadth, Full(cfg.breadth, cfg.maxDepth - nodes[i].depth - 1, leaf));
  }

  lemma SelectedInRange(nodes: seq<ThoughtNode>, r: seq<ThoughtNode>, seen: seq<nat>)
    requires InRange(nodes, seen) && |nodes| <= |r|
    ensures InRange(r, Ids(|nodes|, |r|)) && InRange(r, seen + Select(r, Ids(|nodes|, |r|), true))
  {
    var ids := Ids(|nodes|, |r|);
    var chosen := Select(r, ids, true);
    forall k | 0 <= k < |chosen| ensures chosen[k] < |r| {
      assert chosen[k] in ids;
    }
  }

  lemma StepKeepsValid(cfg: Settings, oracle: Oracle, s: Search)
    requires Valid(s) && s.stack != []
    ensures Valid(Step(cfg, oracle, s).0)
  {
    var i := s.stack[|s.stack| - 1];
    if s.nodes[i].depth < cfg.maxDepth && Expanded(cfg, oracle, s.nodes, i, s.gens, s.evals).Some? {
      var r := Expanded(cfg, oracle, s.nodes, i, s.gens, s.evals).value.0;
      ExpandedGrows(cfg, oracle, s.nodes, i, s.gens, s.evals);
      SelectedInRange(s.nodes, r, s.seen);
      ViableChildren(cfg, s.nodes, i, r);
    }
  }

  /** t has less left to do than s, by at least the generations made in between. */
  ghost predicate LessToDo(cfg: Settings, s: Search, t: Search, leaf: nat)
    requires Valid(s) && Valid(t)
  {
    && Work(cfg, t.nodes, t.stack, leaf) + (t.gens - s.gens) <= Work(cfg, s.nodes, s.stack, leaf)
    && (leaf >= 1 ==> Work(cfg, t.nodes, t.stack, leaf) < Work(cfg, s.nodes, s.stack, leaf))
  }

  lemma StepDoesWork(cfg: Settings, oracle: Oracle, s: Search, leaf: nat)
    requires Valid(s) && s.stack != []
    ensures Valid(Step(cfg, oracle, s).0) && LessToDo(cfg, s, Step(cfg, oracle, s).0, leaf)
  {
    StepKeepsValid(cfg, oracle, s);
    var i := s.stack[|s.stack| - 1];
    if s.nodes[i].depth >= cfg.maxDepth || s.nodes[i].isTerminal {
      LeafDoesWork(cfg, s, leaf);
    } else {
      InnerStepDoesWork(cfg, oracle, s, leaf);
    }
  }

  lemma LeafDoesWork(cfg: Settings, s: Search, leaf: nat)
    requires Valid(s) && s.stack != []
    ensures var t := LeafStep(s, s.stack[|s.stack| - 1], s.stack[..|s.stack| - 1]);
            Valid(t) && LessToDo(cfg, s, t, leaf)
  {
    var i, rest := s.stack[|s.stack| - 1], s.stack[..|s.stack| - 1];
    WorkSplits(cfg, s.nodes, s.stack, leaf);
    WorkKept(cfg, s.nodes, LeafStep(s, i, rest).nodes, rest, leaf);
  }

  lemma {:induction false} InnerStepDoesWork(cfg: Settings, oracle: Oracle, s: Search, leaf: nat)
    requires Valid(s) && s.stack != []
    requires var i := s.stack[|s.stack| - 1]; s.nodes[i].depth < cfg.maxDepth && !s.nodes[i].isTerminal
    ensures Valid(Step(cfg, oracle, s).0) && LessToDo(cfg, s, Step(cfg, oracle, s).0, leaf)
  {
    StepKeepsValid(cfg, oracle, s);
    var i, rest := s.stack[|s.stack| - 1], s.stack[..|s.stack| - 1];
    WorkSplits(cfg, s.nodes, s.stack, leaf);
    ExpansionDoesWork(cfg, oracle, s, i, rest, leaf);
    assert Full(cfg.breadth, Height(cfg, s.nodes[i]), leaf) >= 1;
  }

  lemma {:induction false} ExpansionDoesWork(
    cfg: Settings, oracle: Oracle, s: Search, i: nat, rest: seq<nat>, leaf: nat)
    requires i < |s.nodes| && InRange(s.nodes, rest) && s.nodes[i].depth < cfg.maxDepth
    ensures Expanded(cfg, oracle, s.nodes, i, s.gens, s.evals).Some? ==>
              var r := Expanded(cfg, oracle, s.nodes, i, s.gens, s.evals).value.0;
              var kids := SortBy(Select(r, Ids(|s.nodes|, |r|), false), ValueOf(r));
              && InRange(r, rest) && Work(cfg, r, rest, leaf) == Work(cfg, s.nodes, rest, leaf)
              && InRange(r, rest + kids)
              && Work(cfg, r, rest + kids, leaf) <
                 Work(cfg, s.nodes, rest, leaf) + Full(cfg.breadth, Height(cfg, s.nodes[i]), leaf)
  {
    if Expanded(cfg, oracle, s.nodes, i, s.gens, s.evals).Some? {
      var r := Expanded(cfg, oracle, s.nodes, i, s.gens, s.evals).value.0;
      ExpandedGrows(cfg, oracle, s.nodes, i, s.gens, s.evals);
      WorkKept(cfg, s.nodes, r, rest, leaf);
      LessWork(cfg, s.nodes, rest, i, r, leaf);
    }
  }

  /** The whole loop. */
  function Run(cfg: Settings, oracle: Oracle, s: Search): (Search, Status)
    requires Valid(s)
    decreases Work(cfg, s.nodes, s.stack, 1)
  {
    if s.stack == [] then (s, Done) else
    var (t, status) := Step(cfg, oracle, s);
    StepDoesWork(cfg, oracle, s, 1);
    if status == Going then Run(cfg, oracle, t) else (t, status)
  }

  // ---- Bounds at every loop head ----

  /** The state at the head of the loop after at most k iterations. */
  function Head(cfg: Settings, oracle: Oracle, s: Search, k: nat): (r: (Search, Status))
    requires Valid(s)
    ensures Valid(r.0)
    decreases k
  {
    if k == 0 || s.stack == [] then (s, Going) else
    var (t, status) := Step(cfg, oracle, s);
    StepKeepsValid(cfg, oracle, s);
    if status == Going then Head(cfg, oracle, t, k - 1) else (t, status)
  }

  /** An element at index k of the stack has depth d with k <= d * (breadth - 1). */
  ghost predicate StackBound(cfg: Settings, nodes: seq<ThoughtNode>, stack: seq<nat>)
    requires InRange(nodes, stack)
  {
    forall k :: 0 <= k < |stack| ==>
      nodes[stack[k]].depth <= cfg.maxDepth && k <= nodes[stack[k]].depth * (cfg.breadth - 1)
  }

  lemma PushKeepsBound(
    cfg: Settings, nodes: seq<ThoughtNode>, r: seq<ThoughtNode>, rest: seq<nat>, kids: seq<nat>, i: nat)
    requires InRange(nodes, rest) && |nodes| <= |r| && InRange(r, rest + kids) && InRange(r, kids) && i < |nodes|
    requires forall j :: 0 <= j < |nodes| ==> r[j].depth == nodes[j].depth
    requires cfg.breadth >= 1 && StackBound(cfg, nodes, rest)
    requires nodes[i].depth < cfg.maxDepth && |rest| <= nodes[i].depth * (cfg.breadth - 1)
    requires |kids| <= cfg.breadth && forall k :: 0 <= k < |kids| ==> r[kids[k]].depth == nodes[i].depth + 1
    ensures StackBound(cfg, r, rest + kids)
  {
    var stack := rest + kids;
    forall k | 0 <= k < |stack|
      ensures r[stack[k]].depth <= cfg.maxDepth && k <= r[stack[k]].depth * (cfg.breadth - 1)
    {
      if k < |rest| {
        assert stack[k] == rest[k];
      } else {
        assert stack[k] == kids[k - |rest|];
      }
    }
  }

  lemma {:induction false} ExpansionKeepsBound(
    cfg: Settings, nodes: seq<ThoughtNode>, r: seq<ThoughtNode>, rest: seq<nat>, i: nat)
    requires Grows(nodes, i, r) && |r| <= |nodes| + cfg.breadth && cfg.breadth >= 1
    requires InRange(nodes, rest) && StackBound(cfg, nodes, rest)
    requires nodes[i].depth < cfg.maxDepth && |rest| <= nodes[i].depth * (cfg.breadth - 1)
    ensures var kids := SortBy(Select(r, Ids(|nodes|, |r|), false), ValueOf(r));
            InRange(r, rest + kids) && StackBound(cfg, r, rest + kids)
  {
    ViableChildren(cfg, nodes, i, r);
    PushKeepsBound(cfg, nodes, r, rest, SortBy(Select(r, Ids(|nodes|, |r|), false), ValueOf(r)), i);
  }

  lemma {:induction false} StepKeepsStackBound(cfg: Settings, oracle: Oracle, s: Search)
    requires Valid(s) && s.stack != [] && cfg.breadth >= 1 && StackBound(cfg, s.nodes, s.stack)
    ensures var (t, status) := Step(cfg, oracle, s);
            Valid(t) && (status == Going ==> StackBound(cfg, t.nodes, t.stack))
  {
    StepKeepsValid(cfg, oracle, s);
    var i, rest := s.stack[|s.stack| - 1], s.stack[..|s.stack| - 1];
    assert StackBound(cfg, s.nodes, rest) && |rest| <= s.nodes[i].depth * (cfg.breadth - 1);
    if s.nodes[i].depth >= cfg.maxDepth || s.nodes[i].isTerminal {
      assert StackBound(cfg, LeafStep(s, i, rest).nodes, rest);
    } else if Expanded(cfg, oracle, s.nodes, i, s.gens, s.evals).Some? {
      ExpandedGrows(cfg, oracle, s.nodes, i, s.gens, s.evals);
      ExpansionKeepsBound(cfg, s.nodes, Expanded(cfg, oracle, s.nodes, i, s.gens, s.evals).value.0, rest, i);
    }
  }

  lemma {:induction false} HeadKeepsStackBound(cfg: Settings, oracle: Oracle, s: Search, k: nat)
    requires Valid(s) && cfg.breadth >= 1 && StackBound(cfg, s.nodes, s.stack)
    ensures var (t, status) := Head(cfg, oracle, s, k);
            status == Going ==> StackBound(cfg, t.nodes, t.stack)
    decreases k
  {
    if k > 0 && s.stack != [] {
      StepKeepsStackBound(cfg, oracle, s);
      var (t, status) := Step(cfg, oracle, s);
      if status == Going {
        HeadKeepsStackBound(cfg, oracle, t, k - 1);
      }
    }
  }

  lemma DepthTimes(depth: nat, maxDepth: nat, f: nat)
    requires depth <= maxDepth
    ensures depth * f <= maxDepth * f
  {
  }

  /**
   For every oracle, at every loop head the element at stack index i has depth d with i <= d * (breadth - 1),
   so the stack never holds more than 1 + max_depth * (breadth - 1) nodes.
   */
  lemma StackNeverExceeds(cfg: Settings, oracle: Oracle, problem: string, k: nat)
    requires cfg.breadth >= 1
    ensures var (s, status) := Head(cfg, oracle, Start(problem), k);
            status == Going ==> StackBound(cfg, s.nodes, s.stack) && |s.stack| <= 1 + cfg.maxDepth * (cfg.breadth - 1)
  {
    HeadKeepsStackBound(cfg, oracle, Start(problem), k);
    var (s, status) := Head(cfg, oracle, Start(problem), k);
    if status == Going {
      BoundedStack(cfg, s.nodes, s.stack);
    }
  }

  lemma BoundedStack(cfg: Settings, nodes: seq<ThoughtNode>, stack: seq<nat>)
    requires cfg.breadth >= 1 && InRange(nodes, stack) && StackBound(cfg, nodes, stack)
    ensures |stack| <= 1 + cfg.maxDepth * (cfg.breadth - 1)
  {
    if stack != [] {
      DepthTimes(nodes[stack[|stack| - 1]].depth, cfg.maxDepth, cfg.breadth - 1);
    }
  }

  // ---- Bounds on calls ----

  function Power(b: nat, n: nat): nat {
    if n == 0 then 1 else b * Power(b, n - 1)
  }

  /** The sum of b^i for i < n. */
  function GeometricSum(b: nat, n: nat): nat {
    if n == 0 then 0 else GeometricSum(b, n - 1) + Power(b, n - 1)
  }

  lemma {:induction false} InnerNodes(b: nat, n: nat)
    ensures Full(b, n, 0) == GeometricSum(b, n)
  {
    if n > 0 {
      InnerNodes(b, n - 1);
      SumShifts(b, n - 1);
    }
  }

  lemma {:induction false} SumShifts(b: nat, n: nat)
    ensures 1 + b * GeometricSum(b, n) == GeometricSum(b, n) + Power(b, n)
  {
    if n > 0 {
      SumShifts(b, n - 1);
      Distribute(b, GeometricSum(b, n - 1), Power(b, n - 1));
    }
  }

  lemma Distribute(b: nat, x: nat, y: nat)
    ensures b * (x + y) == b * x + b * y
  {
  }

  lemma StepEvaluates(cfg: Settings, oracle: Oracle, s: Search)
    requires Valid(s) && s.stack != []
    ensures var t := Step(cfg, oracle, s).0;
            || (t.gens == s.gens && t.evals == s.evals)
            || (t.gens == s.gens + 1 && t.evals <= s.evals + cfg.breadth)
  {
    var i := s.stack[|s.stack| - 1];
    if s.nodes[i].depth < cfg.maxDepth && Expanded(cfg, oracle, s.nodes, i, s.gens, s.evals).Some? {
      ExpandedGrows(cfg, oracle, s.nodes, i, s.gens, s.evals);
    }
  }

  lemma {:induction false} RunBounds(cfg: Settings, oracle: Oracle, s: Search)
    requires Valid(s)
    ensures var r := Run(cfg, oracle, s).0;
            && r.gens - s.gens <= Work(cfg, s.nodes, s.stack, 0)
            && r.gens >= s.gens && r.evals - s.evals <= cfg.breadth * (r.gens - s.gens)
    decreases Work(cfg, s.nodes, s.stack, 1)
  {
    if s.stack != [] {
      var (t, status) := Step(cfg, oracle, s);
      StepDoesWork(cfg, oracle, s, 0);
      StepDoesWork(cfg, oracle, s, 1);
      StepEvaluates(cfg, oracle, s);
      if status == Going {
        RunBounds(cfg, oracle, t);
        Distribute(cfg.breadth, 1, Run(cfg, oracle, t).0.gens - t.gens);
      }
    }
  }

  /** At most the sum of breadth^i for i < max_depth expansions, and breadth evaluations for each. */
  lemma CallsNeverExceed(cfg: Settings, oracle: Oracle, problem: string)
    ensures var r := Run(cfg, oracle, Start(problem)).0;
            r.gens <= GeometricSum(cfg.breadth, cfg.maxDepth) && r.evals <= cfg.breadth * r.gens
  {
    var s := Start(problem);
    RunBounds(cfg, oracle, s);
    assert s.stack[..0] == [];
    assert Work(cfg, s.nodes, s.stack, 0) == Full(cfg.breadth, cfg.maxDepth, 0);
    InnerNodes(cfg.breadth, cfg.maxDepth);
  }

  // ---- What is popped next ----

  lemma PushedChildren(cfg: Settings, oracle: Oracle, s: Search) returns (kids: seq<nat>)
    requires Valid(s) && s.stack != [] && Step(cfg, oracle, s).1 == Going
    requires var i := s.stack[|s.stack| - 1]; s.nodes[i].depth < cfg.maxDepth && !s.nodes[i].isTerminal
    ensures var t := Step(cfg, oracle, s).0;
            && t.stack == s.stack[..|s.stack| - 1] + kids
            && InRange(t.nodes, kids) && Ascending(kids, ValueOf(t.nodes))
  {
    var i, t := s.stack[|s.stack| - 1], Step(cfg, oracle, s).0;
    ExpandedGrows(cfg, oracle, s.nodes, i, s.gens, s.evals);
    ViableChildren(cfg, s.nodes, i, t.nodes);
    kids := SortBy(Select(t.nodes, Ids(|s.nodes|, |t.nodes|), false), ValueOf(t.nodes));
  }

  /** After an expansion that pushed something, the next node popped is the child of greatest value. */
  lemma BestChildPoppedNext(cfg: Settings, oracle: Oracle, s: Search)
    requires Valid(s) && s.stack != []
    requires var i := s.stack[|s.stack| - 1]; s.nodes[i].depth < cfg.maxDepth && !s.nodes[i].isTerminal
    ensures var (t, status) := Step(cfg, oracle, s);
            Valid(t) &&
            (status == Going && |t.stack| >= |s.stack| ==>
               forall c: nat :: |s.nodes| <= c && c in t.stack ==>
                 c < |t.nodes| && t.nodes[c].value <= t.nodes[t.stack[|t.stack| - 1]].value)
  {
    StepKeepsValid(cfg, oracle, s);
    var rest := s.stack[..|s.stack| - 1];
    var (t, status) := Step(cfg, oracle, s);
    if status == Going && |t.stack| >= |s.stack| {
      var kids := PushedChildren(cfg, oracle, s);
    }
  }

  // ---- What is returned ----

  /** The best is the first of greatest value among those seen. */
  ghost predicate FirstBest(nodes: seq<ThoughtNode>, seen: seq<nat>, best: Option<nat>) {
    && InRange(nodes, seen)
    && (best.None? <==> seen == [])
    && (best.Some? ==> exists p :: 0 <= p < |seen| && IsFirstMax(nodes, seen, best.value, p))
  }

  ghost predicate IsFirstMax(nodes: seq<ThoughtNode>, seen: seq<nat>, b: nat, p: nat)
    requires InRange(nodes, seen) && p < |seen|
  {
    && seen[p] == b
    && (forall q :: 0 <= q < p ==> nodes[seen[q]].value < nodes[b].value)
    && (forall q :: p <= q < |seen| ==> nodes[seen[q]].value <= nodes[b].value)
  }

  lemma OneMoreSeen(nodes: seq<ThoughtNode>, seen: seq<nat>, best: Option<nat>, i: nat)
    requires FirstBest(nodes, seen, best) && i < |nodes|
    ensures FirstBest(nodes, seen + [i],
                      if best.None? || nodes[i].value > nodes[best.value].value then Some(i) else best)
  {
    var more := seen + [i];
    if best.None? || nodes[i].value > nodes[best.value].value {
      assert IsFirstMax(nodes, more, i, |seen|);
    } else {
      var p :| 0 <= p < |seen| && IsFirstMax(nodes, seen, best.value, p);
      assert IsFirstMax(nodes, more, best.value, p);
    }
  }

  lemma {:induction false} TerminalsSeen(nodes: seq<ThoughtNode>, seen: seq<nat>, best: Option<nat>, ids: seq<nat>)
    requires FirstBest(nodes, seen, best) && InRange(nodes, ids) && (best.Some? ==> best.value < |nodes|)
    ensures FirstBest(nodes, seen + Select(nodes, ids, true), BestTerminal(nodes, best, ids))
    decreases |ids|
  {
    if ids == [] {
      assert seen + [] == seen;
    } else {
      var init, i := ids[..|ids| - 1], ids[|ids| - 1];
      TerminalsSeen(nodes, seen, best, init);
      if nodes[i].isTerminal {
        OneMoreSeen(nodes, seen + Select(nodes, init, true), BestTerminal(nodes, best, init), i);
        assert seen + Select(nodes, ids, true) == seen + Select(nodes, init, true) + [i];
      } else {
        assert Select(nodes, ids, true) == Select(nodes, init, true);
      }
    }
  }

  lemma FirstBestKept(nodes: seq<ThoughtNode>, r: seq<ThoughtNode>, seen: seq<nat>, best: Option<nat>)
    requires FirstBest(nodes, seen, best) && |nodes| <= |r|
    requires forall j :: 0 <= j < |nodes| ==> r[j].value == nodes[j].value
    ensures FirstBest(r, seen, best)
  {
    if best.Some? {
      var p :| 0 <= p < |seen| && IsFirstMax(nodes, seen, best.value, p);
      assert IsFirstMax(r, seen, best.value, p);
    }
  }

  ghost predicate Good(s: Search) {
    Valid(s) && IsTree(s.nodes) && FirstBest(s.nodes, s.seen, s.best)
  }

  lemma StepKeepsGood(cfg: Settings, oracle: Oracle, s: Search)
    requires Good(s) && s.stack != []
    ensures Good(Step(cfg, oracle, s).0)
  {
    StepKeepsValid(cfg, oracle, s);
    var i, rest := s.stack[|s.stack| - 1], s.stack[..|s.stack| - 1];
    if s.nodes[i].depth >= cfg.maxDepth || s.nodes[i].isTerminal {
      LeafKeepsGood(s, i, rest);
    } else if Expanded(cfg, oracle, s.nodes, i, s.gens, s.evals).Some? {
      ExpansionKeepsGood(cfg, oracle, s, i);
    }
  }

  lemma LeafKeepsGood(s: Search, i: nat, rest: seq<nat>)
    requires Good(s) && i < |s.nodes| && InRange(s.nodes, rest)
    ensures Good(LeafStep(s, i, rest))
  {
    var t := LeafStep(s, i, rest);
    OneMoreSeen(s.nodes, s.seen, s.best, i);
    FirstBestKept(s.nodes, t.nodes, t.seen, t.best);
  }

  lemma ExpansionKeepsGood(cfg: Settings, oracle: Oracle, s: Search, i: nat)
    requires Good(s) && i < |s.nodes| && Expanded(cfg, oracle, s.nodes, i, s.gens, s.evals).Some?
    ensures var r := Expanded(cfg, oracle, s.nodes, i, s.gens, s.evals).value.0;
            var ids := Ids(|s.nodes|, |r|);
            IsTree(r) && InRange(r, ids) && FirstBest(r, s.seen + Select(r, ids, true), BestTerminal(r, s.best, ids))
  {
    var r := Expanded(cfg, oracle, s.nodes, i, s.gens, s.evals).value.0;
    ExpandedGrows(cfg, oracle, s.nodes, i, s.gens, s.evals);
    TreeGrows(s.nodes, i, r);
    FirstBestKept(s.nodes, r, s.seen, s.best);
    SelectedInRange(s.nodes, r, s.seen);
    TerminalsSeen(r, s.seen, s.best, Ids(|s.nodes|, |r|));
  }

  lemma {:induction false} RunKeepsGood(cfg: Settings, oracle: Oracle, s: Search)
    requires Good(s)
    ensures Good(Run(cfg, oracle, s).0)
    decreases Work(cfg, s.nodes, s.stack, 1)
  {
    if s.stack != [] {
      StepKeepsGood(cfg, oracle, s);
      StepDoesWork(cfg, oracle, s, 1);
      if Step(cfg, oracle, s).1 == Going {
        RunKeepsGood(cfg, oracle, Step(cfg, oracle, s).0);
      }
    }
  }

  /** The search ends with a tree and the first best of all leaves popped and terminal nodes found. */
  lemma SearchResult(cfg: Settings, oracle: Oracle, problem: string)
    ensures var r := Run(cfg, oracle, Start(problem)).0;
            IsTree(r.nodes) && FirstBest(r.nodes, r.seen, r.best)
  {
    assert Good(Start(problem));
    RunKeepsGood(cfg, oracle, Start(problem));
  }
}
