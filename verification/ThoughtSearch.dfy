/** The two search strategies as loops over a growing tree (src/orchestra/reasoning/tot.py). */
module ThoughtSearch {
  import opened Wrappers
  import opened ThoughtTree
  import opened DepthFirst
  import opened BreadthFirst

  class TreeOfThoughtsAgent {
    const cfg: Settings
    const oracle: Oracle
    var nodes: seq<ThoughtNode>
    var gens: nat
    var evals: nat

    constructor (cfg: Settings, oracle: Oracle)
      ensures this.cfg == cfg && this.oracle == oracle && nodes == [] && gens == 0 && evals == 0
    {
      this.cfg, this.oracle, nodes, gens, evals := cfg, oracle, [], 0, 0;
    }

    /** chain(): walk up the parents, then reverse. */
    method ThoughtChain(i: nat) returns (chain: seq<string>)
      requires i < |nodes| && IsTree(nodes)
      ensures chain == Chain(nodes, i)
    {
      chain := [];
      var at: Option<nat> := Some(i);
      while at.Some?
        invariant at.Some? ==> at.value < |nodes|
        invariant Chain(nodes, i) == (if at.Some? then Chain(nodes, at.value) else []) + chain
        decreases if at.Some? then at.value + 1 else 0
      {
        var node := nodes[at.value];
        assert node.parent.Some? ==> at.value > 0 && node.parent.value < at.value;
        ghost var above := if node.parent.Some? then Chain(nodes, node.parent.value) else [];
        assert above + [node.thought] + chain == above + ([node.thought] + chain);
        chain := [node.thought] + chain;
        at := node.parent;
      }
    }

    /** The end of _parse_thoughts: non-empty lines, without repetitions, at most k. */
    method Parse(raw: seq<string>, k: nat) returns (thoughts: seq<string>)
      ensures thoughts == ParseThoughts(raw, k)
    {
      var unique := [];
      for i := 0 to |raw|
        invariant unique == Deduplicated(raw[..i])
      {
        assert raw[..i + 1][..i] == raw[..i];
        if raw[i] != "" && raw[i] !in unique {
          unique := unique + [raw[i]];
        }
      }
      assert raw[..|raw|] == raw;
      return if |unique| <= k then unique else unique[..k];
    }

    method GenerateThoughts() returns (thoughts: Option<seq<string>>)
      modifies `gens
      ensures gens == old(gens) + 1
      ensures thoughts == match oracle.generate(old(gens))
                          case None => None
                          case Some(raw) => Some(ParseThoughts(raw, cfg.breadth))
    {
      var raw := oracle.generate(gens);
      gens := gens + 1;
      if raw.None? {
        return None;
      }
      var parsed := Parse(raw.value, cfg.breadth);
      return Some(parsed);
    }

    method AddChildren(i: nat, thoughts: seq<string>)
      requires i < |nodes|
      modifies `nodes
      ensures nodes == WithChildren(old(nodes), i, thoughts)
    {
      for j := 0 to |thoughts|
        invariant nodes == WithChildren(old(nodes), i, thoughts[..j]) && nodes[i].depth == old(nodes)[i].depth
      {
        assert thoughts[..j + 1][..j] == thoughts[..j];
        var child := ThoughtNode(thoughts[j], 0.5, nodes[i].depth + 1, Some(i), [], false);
        nodes := nodes[i := nodes[i].(children := nodes[i].children + [|nodes|])] + [child];
      }
      assert thoughts[..|thoughts|] == thoughts;
    }

    method EvaluateThoughts(a: nat, b: nat)
      requires a <= b <= |nodes|
      modifies `nodes, `evals
      ensures (nodes, evals) == Scored(old(nodes), a, b, oracle, old(evals))
    {
      for i := a to b
        invariant (nodes, evals) == Scored(old(nodes), a, i, oracle, old(evals))
      {
        if IsFinal(nodes[i].thought) {
          nodes := nodes[i := nodes[i].(isTerminal := true, value := 1.0)];
        } else {
          var v := oracle.evaluate(evals);
          evals := evals + 1;
          nodes := nodes[i := nodes[i].(value := if v.Some? then v.value else 0.5)];
        }
      }
    }

    /** The loop over evaluated children: terminals compete for the best, the others survive above the threshold. */
    method Scan(a: nat, b: nat, best: Option<nat>) returns (better: Option<nat>, viable: seq<nat>)
      requires a <= b <= |nodes| && (best.Some? ==> best.value < |nodes|)
      ensures InRange(nodes, Ids(a, b))
      ensures better == BestTerminal(nodes, best, Ids(a, b)) && viable == Select(nodes, Ids(a, b), false)
    {
      better, viable := best, [];
      for i := a to b
        invariant better == BestTerminal(nodes, best, Ids(a, i)) && viable == Select(nodes, Ids(a, i), false)
      {
        assert Ids(a, i + 1)[..i - a] == Ids(a, i);
        if nodes[i].isTerminal {
          if better.None? || nodes[i].value > nodes[better.value].value {
            better := Some(i);
          }
        } else if nodes[i].value > IMPOSSIBLE_THRESHOLD {
          viable := viable + [i];
        }
      }
    }

    method Dfs(problem: string) returns (best: Option<nat>, raised: bool, ghost seen: seq<nat>)
      modifies this
      ensures var (r, status) := Run(cfg, oracle, Start(problem).(gens := old(gens), evals := old(evals)));
              && nodes == r.nodes && gens == r.gens && evals == r.evals && seen == r.seen
              && raised == (status == Raised) && best == r.best
    {
      nodes := [ThoughtNode(problem, 1.0, 0, None, [], false)];
      var stack := [0];
      best, raised, seen := None, false, [];
      ghost var whole := Run(cfg, oracle, Search(nodes, stack, best, gens, evals, seen));
      while stack != []
        invariant Valid(Search(nodes, stack, best, gens, evals, seen)) && !raised
        invariant whole == Run(cfg, oracle, Search(nodes, stack, best, gens, evals, seen))
        decreases Work(cfg, nodes, stack, 1)
      {
        StepDoesWork(cfg, oracle, Search(nodes, stack, best, gens, evals, seen), 1);
        var status;
        stack, best, status, seen := Pop(stack, best, seen);
        if status != Going {
          raised := status == Raised;
          return;
        }
      }
    }

    /** One iteration: pop a node; a leaf competes for the best, any other node is expanded. */
    method Pop(stack: seq<nat>, best: Option<nat>, ghost seen: seq<nat>)
      returns (left: seq<nat>, better: Option<nat>, status: Status, ghost more: seq<nat>)
      requires stack != [] && Valid(Search(nodes, stack, best, gens, evals, seen))
      modifies this
      ensures (Search(nodes, left, better, gens, evals, more), status) ==
              Step(cfg, oracle, Search(old(nodes), stack, best, old(gens), old(evals), seen))
    {
      var i := stack[|stack| - 1];
      left, better, status, more := stack[..|stack| - 1], best, Going, seen;
      if nodes[i].depth >= cfg.maxDepth || nodes[i].isTerminal {
        more := seen + [i];
        if best.None? || nodes[i].value > nodes[best.value].value {
          nodes := nodes[i := nodes[i].(isTerminal := true)];
          better := Some(i);
        }
        return;
      }
      var raised, viable;
      better, raised, viable, more := Expand(i, best, seen);
      if raised {
        status := Raised;
      } else if better.Some? {
        status := Done;
      } else {
        left := left + SortBy(viable, ValueOf(nodes));
      }
    }

    /** Generate and evaluate the children of a node. */
    method Expand(i: nat, best: Option<nat>, ghost seen: seq<nat>)
      returns (better: Option<nat>, raised: bool, viable: seq<nat>, ghost more: seq<nat>)
      requires i < |nodes| && (best.Some? ==> best.value < |nodes|)
      modifies this
      ensures var r := Expanded(cfg, oracle, old(nodes), i, old(gens), old(evals));
              && gens == old(gens) + 1 && raised == r.None?
              && (raised ==> nodes == old(nodes) && evals == old(evals) && better == best && more == seen)
              && |old(nodes)| <= |nodes|
              && (!raised ==>
                    var ids := Ids(|old(nodes)|, |nodes|);
                    && (nodes, evals) == r.value && InRange(nodes, ids)
                    && better == BestTerminal(nodes, best, ids) && viable == Select(nodes, ids, false)
                    && more == seen + Select(nodes, ids, true))
    {
      better, raised, viable, more := best, false, [], seen;
      var n := |nodes|;
      var thoughts := GenerateThoughts();
      if thoughts.None? {
        raised := true;
        return;
      }
      AddChildren(i, thoughts.value);
      EvaluateThoughts(n, |nodes|);
      better, viable := Scan(n, |nodes|, best);
      more := seen + Select(nodes, Ids(n, |nodes|), true);
    }

    /** Generations for the whole frontier; one that raises is skipped. */
    method GenerateLevel(frontier: seq<nat>)
      requires InRange(nodes, frontier)
      modifies `nodes, `gens
      ensures nodes == Generated(cfg, oracle, old(nodes), frontier, old(gens)) && gens == old(gens) + |frontier|
    {
      for k := 0 to |frontier|
        invariant InRange(old(nodes), frontier[..k]) && |nodes| >= |old(nodes)|
        invariant nodes == Generated(cfg, oracle, old(nodes), frontier[..k], old(gens)) && gens == old(gens) + k
      {
        assert frontier[..k + 1][..k] == frontier[..k];
        var thoughts := GenerateThoughts();
        if thoughts.Some? {
          AddChildren(frontier[k], thoughts.value);
        }
      }
      assert frontier[..|frontier|] == frontier;
    }

    /** One level of the beam search. */
    method AdvanceLevel(frontier: seq<nat>) returns (kept: seq<nat>, best: Option<nat>, go: bool)
      requires InRange(nodes, frontier)
      modifies this
      ensures (Beam(nodes, kept, best, gens, evals), go) ==
              Level(cfg, oracle, Beam(old(nodes), frontier, None, old(gens), old(evals)))
    {
      kept, best, go := frontier, None, false;
      var n := |nodes|;
      GenerateLevel(frontier);
      if |nodes| == n {
        return;
      }
      EvaluateThoughts(n, |nodes|);
      var viable;
      best, viable := Scan(n, |nodes|, None);
      if best.None? {
        kept := Take(SortBy(viable, MinusValueOf(nodes)), cfg.beam);
        go := kept != [];
      }
    }

    method Bfs(problem: string) returns (result: Option<nat>)
      modifies this
      ensures ValidBeam(Root(problem).(gens := old(gens), evals := old(evals)))
      ensures var r := Levels(cfg, oracle, Root(problem).(gens := old(gens), evals := old(evals)), 1);
              && (result, nodes) == Returned(r) && gens == r.gens && evals == r.evals
    {
      nodes := [ThoughtNode(problem, 1.0, 0, None, [], false)];
      var frontier, depth, go := [0], 1, true;
      var best: Option<nat> := None;
      ghost var whole := Levels(cfg, oracle, Beam(nodes, frontier, best, gens, evals), 1);
      while go && depth <= cfg.maxDepth
        invariant ValidBeam(Beam(nodes, frontier, best, gens, evals)) && (go ==> best.None?)
        invariant whole == if go then Levels(cfg, oracle, Beam(nodes, frontier, best, gens, evals), depth)
                           else Beam(nodes, frontier, best, gens, evals)
        decreases cfg.maxDepth + 1 - depth
      {
        LevelKeepsValid(cfg, oracle, Beam(nodes, frontier, best, gens, evals));
        frontier, best, go := AdvanceLevel(frontier);
        depth := depth + 1;
      }
      if best.Some? {
        return best;
      }
      if frontier == [] {
        return None;
      }
      MaxOfIsMax(nodes, frontier);
      var leaf := MaxOf(nodes, frontier);
      nodes := nodes[leaf := nodes[leaf].(isTerminal := true)];
      return Some(leaf);
    }
  }
}
