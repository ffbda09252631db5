/** What pausing and resuming does not keep: the turn limit, END, and fan-outs (src/orchestra/core/compiled.py). */
module InterruptLimits {
  import opened Wrappers
  import opened WorkflowState
  import opened Edges
  import opened Engine
  import opened Interrupts

  // ---- Turns ----

  /** One leg makes at most as many node calls as it has turns left. */
  lemma {:induction false} LegVisits(g: Graph, c: Config, bypass: bool)
    ensures |Run(g, c, bypass).visits| <= if c.progress.turn < g.maxTurns then g.maxTurns - c.progress.turn else 0
    decreases g.maxTurns - c.progress.turn
  {
    if c.at.At? && c.progress.turn < g.maxTurns {
      var step := Step(g, c, bypass);
      if step.Moved? {
        LegVisits(g, step.next, false);
      }
    }
  }

  lemma LegsAdd(n: nat, maxTurns: nat, first: nat, rest: nat)
    requires first <= maxTurns && (rest == 0 || rest <= n * maxTurns)
    ensures first + rest <= (n + 1) * maxTurns
  {
    assert (n + 1) * maxTurns == n * maxTurns + maxTurns;
  }

  /** max_turns bounds each leg: a run with n resumes makes at most n + 1 times that many node calls. */
  lemma {:induction false} ChainVisits(g: Graph, c: Config, bypass: bool, n: nat)
    requires g.maxTurns >= 0
    ensures |Chain(g, c, bypass, n).visits| <= (n + 1) * g.maxTurns
    decreases n
  {
    LegVisits(g, c, bypass);
    var r := Run(g, c, bypass);
    if n > 0 && r.outcome.Interrupted? {
      var d, before := Resumed(r.outcome.checkpoint), r.outcome.checkpoint.kind.Before?;
      ChainVisits(g, d, before, n - 1);
      LegsAdd(n, g.maxTurns, |r.visits|, |Chain(g, d, before, n - 1).visits|);
    } else {
      LegsAdd(n, g.maxTurns, |r.visits|, 0);
    }
  }

  /** "a", which pauses after, and then "b", with one turn. */
  function TwoLegs(): Graph {
    var idle := Node((_: State) => Ok([]), false, false);
    Graph(map[], map["a" := idle.(interruptAfter := true), "b" := idle],
          [Direct("a", At("b")), Direct("b", End)], "a", 1)
  }

  lemma TwoLegsExits()
    ensures var g := TwoLegs(); OutEdges(g.edges, "a") == [g.edges[0]] && OutEdges(g.edges, "b") == [g.edges[1]]
  {
    var g := TwoLegs();
    assert g.edges[..1] == [g.edges[0]] && g.edges[..1][..0] == [] && g.edges[..2] == g.edges;
  }

  lemma SecondLeg(g: Graph, c: Config, s: State)
    requires (g == TwoLegs() || g == Erase(TwoLegs())) && c.at == At("b") && c.state == s && c.progress.turn == 0
    ensures var r := Run(g, c, false); r.outcome == Finished(s) && r.visits == [Visit("b", s)]
  {
    TwoLegsExits();
    var step := Step(g, c, false);
    assert step.Moved? && step.next.at.End?;
  }

  /** It is not a bound on the whole: one turn is too few for the run without flags, and enough for it with a resume. */
  lemma LegsOutrunMaxTurns(s: State)
    ensures var g, c := TwoLegs(), Config(At("a"), s, Progress(0, [], map[]));
            && Run(Erase(g), c, false).outcome == Failed(MaxIterations("b"))
            && Chain(g, c, false, 1).outcome == Finished(s) && |Chain(g, c, false, 1).visits| == 2 > g.maxTurns
  {
    var g, c := TwoLegs(), Config(At("a"), s, Progress(0, [], map[]));
    TwoLegsExits();
    NextIgnoresFlags(g, "a", s, map[]);
    assert Step(Erase(g), c, false).Moved? && Step(Erase(g), c, false).next.at == At("b");
    ChainPauses(g, c, false, 1);
    SecondLeg(g, Resumed(Step(g, c, false).outcome.checkpoint), s);
  }

  // ---- The two ways transparency fails ----

  /** An interrupt_after node whose exit is END: the checkpoint names "END", which resume cannot run. */
  lemma EndCheckpointCannotResume(g: Graph, c: Config, n: nat)
    requires c.at.At? && c.progress.turn < g.maxTurns && "END" !in g.nodes && g.maxTurns > 0
    requires Step(g, c, true).Stopped? && Step(g, c, true).outcome.Interrupted?
    requires Step(Erase(g), c, false).Moved? && Step(Erase(g), c, false).next.at.End?
    requires n > 0
    ensures Chain(g, c, true, n).outcome == Failed(NodeNotFound("END"))
  {
    StepAgainstErased(g, c, true);
    ChainPauses(g, c, true, n);
  }

  /** "plan", interrupted after, fans out to "work" and joins at "merge"; "work" sets x to 1. */
  function LossyGraph(): Graph {
    var schema := map["x" := Field(NumKind, None)];
    var idle := Node((_: State) => Ok([]), false, false);
    var work := Node((_: State) => Ok([("x", Num(1))]), false, false);
    Graph(schema,
          map["plan" := idle.(interruptAfter := true), "work" := work, "merge" := idle],
          [Parallel("plan", [At("work")], Some(At("merge"))), Direct("merge", End)],
          "plan", 50)
  }

  function X(n: int): State {
    map["x" := Num(n)]
  }

  lemma LossyFanOut()
    ensures FanOut(LossyGraph(), [At("work")], X(0)) == Ok(X(1))
  {
    var g, update: Update := LossyGraph(), [("x", Num(1))];
    var results := BranchResults(g, [At("work")], X(0));
    assert results == [Ok(update)];
    assert results[..0] == [] && Updates([]) == [] && Errors([]) == [];
    assert Updates(results) == [] + [update];
    assert Errors(results) == [];
    assert update[..0] == [];
    assert FillData(g.schema, X(0), []) == Ok(X(0));
    assert FillData(g.schema, X(0), update) == Ok(X(0)["x" := Num(1)]);
    assert X(0)["x" := Num(1)] == X(1) && WellTyped(g.schema, X(1));
    assert ApplyUpdate(g.schema, X(0), update) == Ok(X(1));
    assert [update][..0] == [];
    assert Merge(g.schema, X(0), [update]) == Ok(X(1));
    assert [At("work")][1..] == [] && FirstUnknown(g, [At("work")]).None?;
  }

  lemma LossyExits()
    ensures var g := LossyGraph();
            OutEdges(g.edges, "plan") == [g.edges[0]] && OutEdges(g.edges, "merge") == [g.edges[1]]
  {
    var g := LossyGraph();
    assert g.edges[..1] == [g.edges[0]] && g.edges[..1][..0] == [] && g.edges[..2] == g.edges;
  }

  lemma LossyMerge(middle: Config)
    requires middle.at == At("merge") && middle.progress.turn < 10
    ensures Run(Erase(LossyGraph()), middle, false).outcome == Finished(middle.state)
    ensures Run(LossyGraph(), middle, false).outcome == Finished(middle.state)
  {
    LossyExits();
  }

  lemma LossyPlan(start: Config)
    requires start.at == At("plan") && start.state == X(0) && start.progress.turn < 10
    ensures var step := Step(Erase(LossyGraph()), start, false);
            step.Moved? && step.next.at == At("merge") && step.next.state == X(1) &&
            step.next.progress.turn == start.progress.turn + 1
    ensures var step := Step(LossyGraph(), start, false);
            step.Stopped? && step.outcome.Interrupted? &&
            step.outcome.checkpoint.node == "merge" && step.outcome.checkpoint.state == X(0)
  {
    LossyFanOut();
    LossyExits();
    NextIgnoresFlags(LossyGraph(), "plan", X(0), start.progress.counters);
  }

  /** The erased run ends with the branch's update; the interrupted and resumed one without it. */
  lemma {:induction false} FanOutAfterPauseIsLost(n: nat)
    requires n > 0
    ensures var c := Config(At("plan"), X(0), Progress(0, [], map[]));
            && Run(Erase(LossyGraph()), c, false).outcome == Finished(X(1))
            && Chain(LossyGraph(), c, false, n).outcome == Finished(X(0))
  {
    var g, c := LossyGraph(), Config(At("plan"), X(0), Progress(0, [], map[]));
    LossyPlan(c);
    LossyMerge(Step(Erase(g), c, false).next);
    ChainPauses(g, c, false, n);
    LossyMerge(Resumed(Step(g, c, false).outcome.checkpoint));
  }
}
