/** Compile-then-run: what the graph built from a fluent program does. */
module FluentRuns {
  import opened Wrappers
  import opened WorkflowState
  import opened Edges
  import opened Engine
  import opened Builder
  import opened Fluent
  import opened Interrupts

  // ---- Running the compiled graph ----

  /** A run that starts with this progress has this effect; a finished one leaves no loop counter behind. */
  ghost predicate Agrees(r: RunResult, p: Progress, e: Effect) {
    && r.outcome == e.outcome
    && r.progress.order == p.order + e.order
    && (e.outcome.Finished? ==> r.progress.counters == map[] && r.progress.turn == p.turn + |e.order|)
  }

  lemma RunMoves(g: Graph, c: Config, next: Config, visit: Visit)
    requires c.at.At? && c.progress.turn < g.maxTurns && Step(g, c, false) == Moved(next, visit)
    ensures Run(g, c, false).outcome == Run(g, next, false).outcome
    ensures Run(g, c, false).progress == Run(g, next, false).progress
  {
  }

  lemma AgreesThrough(r: RunResult, whole: RunResult, before: Progress, after: Progress, id: string, e: Effect)
    requires whole.outcome == r.outcome && whole.progress == r.progress
    requires after.turn == before.turn + 1 && after.order == before.order + [id]
    requires Agrees(r, after, e)
    ensures Agrees(whole, before, Through(id, e))
  {
    assert before.order + [id] + e.order == before.order + ([id] + e.order);
  }

  lemma AgreesAfter(g: Graph, c: Config, next: Config, visit: Visit, id: string, e: Effect)
    requires c.at.At? && c.progress.turn < g.maxTurns && Step(g, c, false) == Moved(next, visit)
    requires next.progress.turn == c.progress.turn + 1 && next.progress.order == c.progress.order + [id]
    requires Agrees(Run(g, next, false), next.progress, e)
    ensures Agrees(Run(g, c, false), c.progress, Through(id, e))
  {
    RunMoves(g, c, next, visit);
    AgreesThrough(Run(g, next, false), Run(g, c, false), c.progress, next.progress, id, e);
  }

  /** Arriving at a fan-out: the branches of the graph give what the branches of the program give. */
  lemma {:induction false} FanOutMeaning(p: seq<Stage>, g: Graph, i: nat, s: State)
    requires p != [] && Realizes(p, g) && i < |p| && p[i].Fan?
    ensures FanOut(g, Ats(BranchIds(p[i].branches)), s) == MergeBranches(g.schema, s, BranchOutputs(p[i].branches, s))
  {
    var branches, ids := p[i].branches, Ats(BranchIds(p[i].branches));
    assert HasNodes(g.nodes, p[i]);
    forall t | t in ids ensures IsNode(g, t) {
      var j :| 0 <= j < |ids| && ids[j] == t;
      assert branches[j] in branches;
    }
    FirstUnknownNone(g, ids);
    forall j | 0 <= j < |ids| ensures BranchResults(g, ids, s)[j] == BranchOutputs(branches, s)[j] {
      assert branches[j] in branches;
    }
    assert BranchResults(g, ids, s) == BranchOutputs(branches, s);
  }

  function Place(p: seq<Stage>, i: nat): Target {
    if i < |p| then At(MainId(p[i])) else End
  }

  /** The state in which stage i is entered. */
  function Arrival(schema: Schema, p: seq<Stage>, i: nat, s: State): Result<State, RunError> {
    if i < |p| && p[i].Fan? then MergeBranches(schema, s, BranchOutputs(p[i].branches, s)) else Ok(s)
  }

  /** Where and in which state the run goes from stage i - 1. */
  function Onward(schema: Schema, p: seq<Stage>, i: nat, s: State): Result<(Target, State), RunError> {
    match Arrival(schema, p, i, s)
    case Err(e) => Err(e)
    case Ok(t) => Ok((Place(p, i), t))
  }

  lemma MeaningFrom(schema: Schema, p: seq<Stage>, i: nat, s: State, turns: int)
    requires i <= |p|
    ensures var arrival, meaning := Arrival(schema, p, i, s), Meaning(schema, p[i..], s, turns);
            && (arrival.Err? ==> meaning == Effect([], Failed(arrival.error)))
            && (arrival.Ok? && i < |p| ==> meaning == Enter(schema, p[i..], arrival.value, turns))
            && (arrival.Ok? && i == |p| ==> meaning == Effect([], Finished(arrival.value)))
  {
  }

  /** Leaving a stage that is not a loop. */
  lemma NextStage(p: seq<Stage>, g: Graph, i: nat, s: State)
    requires p != [] && Realizes(p, g) && i < |p| && !p[i].Loop?
    ensures Next(Erase(g), MainId(p[i]), s, map[]) == (Onward(g.schema, p, i + 1, s), map[])
  {
    NextIgnoresFlags(g, MainId(p[i]), s, map[]);
    assert OutEdges(g.edges, MainId(p[i]))[0] == FirstExit(p, i);
    if i + 1 < |p| && p[i + 1].Fan? {
      FanOutMeaning(p, g, i + 1, s);
    }
  }

  /** A step of a node without flags, in terms of what its work and its exit give. */
  lemma StepFails(g: Graph, id: string, s: State, q: Progress)
    requires id in g.nodes && !g.nodes[id].interruptBefore && !g.nodes[id].interruptAfter
    requires Execute(g.schema, id, g.nodes[id], s).Err?
    ensures Step(g, Config(At(id), s, q), false) ==
            Stopped(Failed(Execute(g.schema, id, g.nodes[id], s).error),
                    Progress(q.turn + 1, OrderAfter(g.nodes[id], s, id, q.order), q.counters), [Visit(id, s)])
  {
  }

  lemma StepWorks(g: Graph, id: string, s: State, q: Progress, t: State)
    requires id in g.nodes && !g.nodes[id].interruptBefore && !g.nodes[id].interruptAfter
    requires Execute(g.schema, id, g.nodes[id], s) == Ok(t)
    ensures var next := Next(g, id, t, q.counters);
            var after := Progress(q.turn + 1, q.order + [id], next.1);
            Step(g, Config(At(id), s, q), false) ==
            if next.0.Err? then Stopped(Failed(next.0.error), after, [Visit(id, s)])
            else Moved(Config(next.0.value.0, next.0.value.1, after), Visit(id, s))
  {
  }

  lemma ErasedNode(p: seq<Stage>, g: Graph, i: nat, s: State)
    requires p != [] && Realizes(p, g) && i < |p|
    ensures var id, e := MainId(p[i]), Erase(g);
            && id in e.nodes && e.nodes[id] == EraseNode(MainNode(p[i]))
            && Execute(g.schema, id, e.nodes[id], s) == Execute(g.schema, id, MainNode(p[i]), s)
            && OrderAfter(e.nodes[id], s, id, []) == OrderAfter(MainNode(p[i]), s, id, [])
  {
    assert HasNodes(g.nodes, p[i]);
  }

  /** The step of a stage that is not a loop, once its work has succeeded. */
  lemma StageStep(p: seq<Stage>, g: Graph, i: nat, s: State, q: Progress, t: State)
    requires p != [] && Realizes(p, g) && i < |p| && !p[i].Loop? && q.counters == map[]
    requires Execute(g.schema, MainId(p[i]), MainNode(p[i]), s) == Ok(t)
    ensures var id, to := MainId(p[i]), Onward(g.schema, p, i + 1, t);
            var after := Progress(q.turn + 1, q.order + [id], map[]);
            Step(Erase(g), Config(At(id), s, q), false) ==
            if to.Err? then Stopped(Failed(to.error), after, [Visit(id, s)])
            else Moved(Config(to.value.0, to.value.1, after), Visit(id, s))
  {
    ErasedNode(p, g, i, s);
    StepWorks(Erase(g), MainId(p[i]), s, q, t);
    NextStage(p, g, i, t);
  }

  lemma StageFails(p: seq<Stage>, g: Graph, i: nat, s: State, q: Progress)
    requires p != [] && Realizes(p, g) && i < |p| && q.turn < g.maxTurns
    requires Execute(g.schema, MainId(p[i]), MainNode(p[i]), s).Err?
    ensures var failure := Execute(g.schema, MainId(p[i]), MainNode(p[i]), s).error;
            Agrees(Run(Erase(g), Config(At(MainId(p[i])), s, q), false), q,
                   Effect(OrderAfter(MainNode(p[i]), s, MainId(p[i]), []), Failed(failure)))
  {
    ErasedNode(p, g, i, s);
    StepFails(Erase(g), MainId(p[i]), s, q);
    assert q.order + [] == q.order;
  }

  /** From the main node of stage i on, the run of the erased graph has the meaning of the rest of the program. */
  lemma {:induction false} EnterRuns(p: seq<Stage>, g: Graph, i: nat, s: State, q: Progress)
    requires p != [] && Realizes(p, g) && i < |p| && q.counters == map[]
    ensures Agrees(Run(Erase(g), Config(At(MainId(p[i])), s, q), false), q,
                   Enter(g.schema, p[i..], s, g.maxTurns - q.turn))
    decreases |p| - i, 0
  {
    assert p[i..][0] == p[i] && p[i..][1..] == p[i + 1..];
    var executed := Execute(g.schema, MainId(p[i]), MainNode(p[i]), s);
    if p[i].Loop? {
      RepeatRuns(p, g, i, s, q, 1);
    } else if q.turn < g.maxTurns {
      if executed.Err? {
        StageFails(p, g, i, s, q);
      } else {
        WorkRuns(p, g, i, s, q, executed.value);
      }
    }
  }

  lemma {:induction false} WorkRuns(p: seq<Stage>, g: Graph, i: nat, s: State, q: Progress, t: State)
    requires p != [] && Realizes(p, g) && i < |p| && !p[i].Loop? && q.counters == map[] && q.turn < g.maxTurns
    requires Execute(g.schema, MainId(p[i]), MainNode(p[i]), s) == Ok(t)
    ensures Agrees(Run(Erase(g), Config(At(MainId(p[i])), s, q), false), q,
                   Through(MainId(p[i]), Meaning(g.schema, p[i + 1..], t, g.maxTurns - q.turn - 1)))
    decreases |p| - i - 1, 2
  {
    StageStep(p, g, i, s, q, t);
    MeaningFrom(g.schema, p, i + 1, t, g.maxTurns - q.turn - 1);
    var step := Step(Erase(g), Config(At(MainId(p[i])), s, q), false);
    if step.Moved? {
      OnwardRuns(p, g, i + 1, t, step.next.progress);
      AgreesAfter(Erase(g), Config(At(MainId(p[i])), s, q), step.next, step.visit, MainId(p[i]),
                  Meaning(g.schema, p[i + 1..], t, g.maxTurns - q.turn - 1));
    }
  }

  lemma {:induction false} OnwardRuns(p: seq<Stage>, g: Graph, i: nat, s: State, q: Progress)
    requires p != [] && Realizes(p, g) && 0 < i <= |p| && q.counters == map[]
    requires Onward(g.schema, p, i, s).Ok?
    ensures var to := Onward(g.schema, p, i, s).value;
            Agrees(Run(Erase(g), Config(to.0, to.1, q), false), q, Meaning(g.schema, p[i..], s, g.maxTurns - q.turn))
    decreases |p| - i, 1
  {
    MeaningFrom(g.schema, p, i, s, g.maxTurns - q.turn);
    if i < |p| {
      EnterRuns(p, g, i, Arrival(g.schema, p, i, s).value, q);
    }
  }

  function LoopCounters(st: Stage, pass: nat): Counters
    requires st.Loop?
  {
    if pass <= 1 then map[] else map["__loop_" + st.loopId := pass - 1]
  }

  lemma LoopNext(p: seq<Stage>, g: Graph, i: nat, t: State, pass: nat)
    requires p != [] && Realizes(p, g) && i < |p| && p[i].Loop? && pass >= 1
    ensures Next(Erase(g), p[i].loopId, t, LoopCounters(p[i], pass)) ==
            if pass >= p[i].maxIterations || !p[i].condition(t) then (Ok((End, t)), map[])
            else (Ok((At(p[i].loopId), t)), LoopCounters(p[i], pass + 1))
  {
    var st, counters := p[i], LoopCounters(p[i], pass);
    NextIgnoresFlags(g, st.loopId, t, counters);
    assert OutEdges(g.edges, MainId(st))[0] == FirstExit(p, i) == LoopEdge(st);
    RouteOfLoop(st, t, pass);
  }

  lemma RouteOfLoop(st: Stage, t: State, pass: nat)
    requires st.Loop? && pass >= 1
    ensures LoopRoute(st.loopId, st.condition, st.maxIterations)(t, LoopCounters(st, pass)) ==
            if pass >= st.maxIterations || !st.condition(t) then Routed(Ok(EndValue), map[])
            else Routed(Ok(StrValue(st.loopId)), LoopCounters(st, pass + 1))
  {
    var loopId, counters := "__loop_" + st.loopId, LoopCounters(st, pass);
    assert counters - {loopId} == map[];
    assert counters[loopId := pass] == LoopCounters(st, pass + 1);
  }

  lemma LoopStep(p: seq<Stage>, g: Graph, i: nat, s: State, q: Progress, pass: nat, t: State)
    requires p != [] && Realizes(p, g) && i < |p| && p[i].Loop? && pass >= 1
    requires q.counters == LoopCounters(p[i], pass)
    requires Execute(g.schema, p[i].loopId, p[i].loopNode, s) == Ok(t)
    ensures var id, done := p[i].loopId, pass >= p[i].maxIterations || !p[i].condition(t);
            Step(Erase(g), Config(At(id), s, q), false) ==
            Moved(Config(if done then End else At(id), t,
                         Progress(q.turn + 1, q.order + [id], if done then map[] else LoopCounters(p[i], pass + 1))),
                  Visit(id, s))
  {
    ErasedNode(p, g, i, s);
    StepWorks(Erase(g), p[i].loopId, s, q, t);
    LoopNext(p, g, i, t, pass);
  }

  lemma RepeatGoesRound(schema: Schema, st: Stage, s: State, pass: nat, turns: int)
    requires st.Loop? && turns > 0 && Execute(schema, st.loopId, st.loopNode, s).Ok?
    requires var t := Execute(schema, st.loopId, st.loopNode, s).value; pass < st.maxIterations && st.condition(t)
    ensures Repeat(schema, st, s, pass, turns) ==
            var t := Execute(schema, st.loopId, st.loopNode, s).value;
            Through(st.loopId, Repeat(schema, st, t, pass + 1, turns - 1))
  {
  }

  function AfterPass(st: Stage, q: Progress, pass: nat): Progress
    requires st.Loop?
  {
    Progress(q.turn + 1, q.order + [st.loopId], LoopCounters(st, pass + 1))
  }

  lemma RepeatContinues(p: seq<Stage>, g: Graph, i: nat, s: State, q: Progress, pass: nat, t: State)
    requires p != [] && Realizes(p, g) && i < |p| && p[i].Loop? && pass >= 1
    requires q.counters == LoopCounters(p[i], pass) && q.turn < g.maxTurns
    requires Execute(g.schema, p[i].loopId, p[i].loopNode, s) == Ok(t)
    requires pass < p[i].maxIterations && p[i].condition(t)
    requires var after := AfterPass(p[i], q, pass);
             Agrees(Run(Erase(g), Config(At(p[i].loopId), t, after), false), after,
                    Repeat(g.schema, p[i], t, pass + 1, g.maxTurns - q.turn - 1))
    ensures Agrees(Run(Erase(g), Config(At(p[i].loopId), s, q), false), q,
                   Repeat(g.schema, p[i], s, pass, g.maxTurns - q.turn))
  {
    var id, c := p[i].loopId, Config(At(p[i].loopId), s, q);
    LoopStep(p, g, i, s, q, pass, t);
    AgreesAfter(Erase(g), c, Config(At(id), t, AfterPass(p[i], q, pass)), Visit(id, s), id,
                Repeat(g.schema, p[i], t, pass + 1, g.maxTurns - q.turn - 1));
    RepeatGoesRound(g.schema, p[i], s, pass, g.maxTurns - q.turn);
  }

  lemma RepeatEnds(p: seq<Stage>, g: Graph, i: nat, s: State, q: Progress, pass: nat)
    requires p != [] && Realizes(p, g) && i < |p| && p[i].Loop? && pass >= 1
    requires q.counters == LoopCounters(p[i], pass) && q.turn < g.maxTurns
    requires var t := Execute(g.schema, p[i].loopId, p[i].loopNode, s);
             t.Ok? && (pass >= p[i].maxIterations || !p[i].condition(t.value))
    ensures Agrees(Run(Erase(g), Config(At(p[i].loopId), s, q), false), q,
                   Repeat(g.schema, p[i], s, pass, g.maxTurns - q.turn))
  {
    var t := Execute(g.schema, p[i].loopId, p[i].loopNode, s).value;
    LoopStep(p, g, i, s, q, pass, t);
    var c := Config(At(p[i].loopId), s, q);
    RunMoves(Erase(g), c, Step(Erase(g), c, false).next, Visit(p[i].loopId, s));
  }

  lemma {:induction false} RepeatRuns(p: seq<Stage>, g: Graph, i: nat, s: State, q: Progress, pass: nat)
    requires p != [] && Realizes(p, g) && i < |p| && p[i].Loop? && pass >= 1
    requires q.counters == LoopCounters(p[i], pass)
    ensures Agrees(Run(Erase(g), Config(At(p[i].loopId), s, q), false), q,
                   Repeat(g.schema, p[i], s, pass, g.maxTurns - q.turn))
    decreases g.maxTurns - q.turn
  {
    var st, executed := p[i], Execute(g.schema, p[i].loopId, p[i].loopNode, s);
    if q.turn < g.maxTurns {
      if executed.Err? {
        StageFails(p, g, i, s, q);
      } else {
        var t := executed.value;
        if pass < st.maxIterations && st.condition(t) {
          RepeatRuns(p, g, i, t, AfterPass(st, q, pass), pass + 1);
          RepeatContinues(p, g, i, s, q, pass, t);
        } else {
          RepeatEnds(p, g, i, s, q, pass);
        }
      }
    }
  }

  const FRESH := Progress(0, [], map[])

  lemma RealizedRun(p: seq<Stage>, g: Graph, s: State)
    requires p != [] && !p[0].Fan? && Realizes(p, g)
    ensures Agrees(Run(Erase(g), Config(At(g.entry), s, FRESH), false), FRESH, Meaning(g.schema, p, s, g.maxTurns))
  {
    assert p[0..] == p;
    EnterRuns(p, g, 0, s, FRESH);
  }

  /**
   Compile-then-run is the direct meaning of the program: outcome and order of nodes, with one turn
   for every then, join and loop pass, and no loop counter left over.
   */
  lemma {:induction false} CompileThenRun(p: seq<Stage>, schema: Schema, maxTurns: int, s: State)
    requires WellFormed(p)
    ensures var r := Compiled(Build(p).b, schema, maxTurns);
            r.Ok? &&
            Agrees(Run(Erase(r.value), Config(At(r.value.entry), s, FRESH), false), FRESH,
                   Meaning(schema, p, s, maxTurns))
  {
    CompileSucceeds(p, schema, maxTurns);
    RealizedRun(p, Compiled(Build(p).b, schema, maxTurns).value, s);
  }

  // ---- Programs without loops ----

  /** What one stage does to the state it is reached with. */
  function StageEffect(schema: Schema, st: Stage, s: State): Result<State, RunError> {
    if st.Fan? then
      match MergeBranches(schema, s, BranchOutputs(st.branches, s))
      case Err(e) => Err(e)
      case Ok(t) => Execute(schema, st.joinId, st.joinNode, t)
    else Execute(schema, MainId(st), MainNode(st), s)
  }

  /** Left-to-right composition of the stages. */
  function Compose(schema: Schema, p: seq<Stage>, s: State): Result<State, RunError> {
    if p == [] then Ok(s) else
    match StageEffect(schema, p[0], s)
    case Err(e) => Err(e)
    case Ok(t) => Compose(schema, p[1..], t)
  }

  function MainIds(p: seq<Stage>): seq<string> {
    seq(|p|, i requires 0 <= i < |p| => MainId(p[i]))
  }

  predicate LoopFree(p: seq<Stage>) {
    forall i :: 0 <= i < |p| ==> !p[i].Loop?
  }

  lemma FirstMainId(p: seq<Stage>)
    requires p != []
    ensures MainIds(p) == [MainId(p[0])] + MainIds(p[1..])
  {
  }

  lemma FirstMainIds(p: seq<Stage>, turns: nat)
    requires 0 < turns
    ensures turns < |p| ==>
              && MainIds(p[..turns]) == [MainId(p[0])] + MainIds(p[1..][..turns - 1])
              && p[turns] == p[1..][turns - 1]
  {
    if turns < |p| {
      assert p[..turns][1..] == p[1..][..turns - 1];
      FirstMainId(p[..turns]);
    }
  }

  lemma OutOfTurns(schema: Schema, p: seq<Stage>, s: State)
    requires p != [] && !p[0].Loop? && StageEffect(schema, p[0], s).Ok?
    ensures Meaning(schema, p, s, 0) == Effect(MainIds(p[..0]), Failed(MaxIterations(MainId(p[0]))))
  {
  }

  lemma MeaningOfFirst(schema: Schema, p: seq<Stage>, s: State, turns: nat)
    requires p != [] && !p[0].Loop? && StageEffect(schema, p[0], s).Ok? && turns > 0
    ensures Meaning(schema, p, s, turns) ==
            Through(MainId(p[0]), Meaning(schema, p[1..], StageEffect(schema, p[0], s).value, turns - 1))
  {
  }

  /** The composition of the stages with one turn each, or running out of turns. */
  function Composed(schema: Schema, p: seq<Stage>, s: State, turns: nat): Effect
    requires Compose(schema, p, s).Ok?
  {
    if |p| <= turns then Effect(MainIds(p), Finished(Compose(schema, p, s).value))
    else Effect(MainIds(p[..turns]), Failed(MaxIterations(MainId(p[turns]))))
  }

  lemma ComposedFirst(schema: Schema, p: seq<Stage>, s: State, turns: nat)
    requires p != [] && turns > 0 && Compose(schema, p, s).Ok?
    ensures Composed(schema, p, s, turns) ==
            Through(MainId(p[0]), Composed(schema, p[1..], StageEffect(schema, p[0], s).value, turns - 1))
  {
    FirstMainId(p);
    FirstMainIds(p, turns);
  }

  lemma {:induction false} MeaningComposes(schema: Schema, p: seq<Stage>, s: State, turns: nat)
    requires Compose(schema, p, s).Ok? && LoopFree(p)
    ensures Meaning(schema, p, s, turns) == Composed(schema, p, s, turns)
    decreases |p|
  {
    if p == [] {
    } else if turns == 0 {
      OutOfTurns(schema, p, s);
    } else {
      MeaningOfFirst(schema, p, s, turns);
      MeaningComposes(schema, p[1..], StageEffect(schema, p[0], s).value, turns - 1);
      ComposedFirst(schema, p, s, turns);
    }
  }

  /** A fresh run that agrees with an effect has just its order, and its progress when it finishes. */
  lemma AgreesFresh(r: RunResult, e: Effect)
    requires Agrees(r, FRESH, e)
    ensures r.outcome == e.outcome && r.progress.order == e.order
    ensures e.outcome.Finished? ==> r.progress == Progress(|e.order|, e.order, map[])
  {
    assert FRESH.order + e.order == e.order;
  }

  /** What the run of a compiled loop-free program comes to. */
  ghost predicate OneTurnEach(p: seq<Stage>, schema: Schema, maxTurns: nat, s: State, r: RunResult)
    requires Compose(schema, p, s).Ok?
  {
    if |p| <= maxTurns
    then r.outcome == Finished(Compose(schema, p, s).value) && r.progress == Progress(|p|, MainIds(p), map[])
    else r.outcome == Failed(MaxIterations(MainId(p[maxTurns]))) && r.progress.order == MainIds(p[..maxTurns])
  }

  lemma AgreesWithComposition(p: seq<Stage>, schema: Schema, maxTurns: nat, s: State, r: RunResult)
    requires Compose(schema, p, s).Ok? && LoopFree(p)
    requires Agrees(r, FRESH, Meaning(schema, p, s, maxTurns))
    ensures OneTurnEach(p, schema, maxTurns, s, r)
  {
    MeaningComposes(schema, p, s, maxTurns);
    AgreesFresh(r, Meaning(schema, p, s, maxTurns));
  }

  /**
   A loop-free program whose stages all succeed ends in the composition of its stages after one turn
   per stage, and exceeds max_turns exactly when it has more stages than that.
   */
  lemma {:induction false} StagesTakeOneTurnEach(p: seq<Stage>, schema: Schema, maxTurns: nat, s: State)
    requires WellFormed(p) && LoopFree(p)
    requires Compose(schema, p, s).Ok?
    ensures var g := Compiled(Build(p).b, schema, maxTurns);
            && g.Ok?
            && OneTurnEach(p, schema, maxTurns, s, Run(Erase(g.value), Config(At(g.value.entry), s, FRESH), false))
  {
    CompileThenRun(p, schema, maxTurns, s);
    var g := Compiled(Build(p).b, schema, maxTurns).value;
    AgreesWithComposition(p, schema, maxTurns, s, Run(Erase(g), Config(At(g.entry), s, FRESH), false));
  }

  // ---- Loops ----

  /** The state after k passes of the body. */
  function Pass(schema: Schema, st: Stage, s: State, k: nat): Result<State, RunError>
    requires st.Loop?
  {
    if k == 0 then Ok(s) else
    match Pass(schema, st, s, k - 1)
    case Err(e) => Err(e)
    case Ok(t) => Execute(schema, st.loopId, st.loopNode, t)
  }

  function Copies(id: string, k: nat): seq<string> {
    if k == 0 then [] else [id] + Copies(id, k - 1)
  }

  /** Pass k succeeds and leaves the condition true. */
  predicate StillTrue(schema: Schema, st: Stage, s: State, k: nat)
    requires st.Loop?
  {
    Pass(schema, st, s, k).Ok? && st.condition(Pass(schema, st, s, k).value)
  }

  /** After pass k the loop goes round again. */
  predicate GoesOn(schema: Schema, st: Stage, s: State, k: nat)
    requires st.Loop?
  {
    StillTrue(schema, st, s, k) && k < st.maxIterations
  }

  lemma {:induction false} RepeatFrom(schema: Schema, st: Stage, s: State, done: nat, k: nat, turns: int)
    requires st.Loop? && done < k && turns >= k - done
    requires Pass(schema, st, s, done).Ok? && Pass(schema, st, s, k).Ok? && !GoesOn(schema, st, s, k)
    requires forall j :: done < j < k ==> GoesOn(schema, st, s, j)
    ensures Repeat(schema, st, Pass(schema, st, s, done).value, done + 1, turns) ==
            Effect(Copies(st.loopId, k - done), Finished(Pass(schema, st, s, k).value))
    decreases k - done
  {
    if done + 1 < k {
      assert GoesOn(schema, st, s, done + 1);
      RepeatFrom(schema, st, s, done + 1, k, turns - 1);
    } else {
      assert Copies(st.loopId, 1) == [st.loopId] + Copies(st.loopId, 0);
    }
  }

  /**
   A loop with M >= 1 and enough turns makes exactly min(M, i) passes, i being the first pass after
   which the condition is false.
   */
  lemma LoopPasses(schema: Schema, st: Stage, s: State, i: nat, turns: int)
    requires st.Loop? && st.maxIterations >= 1 && i >= 1
    requires forall j: nat :: 1 <= j < i ==> StillTrue(schema, st, s, j)
    requires Pass(schema, st, s, i).Ok? && !StillTrue(schema, st, s, i)
    ensures var k := if st.maxIterations < i then st.maxIterations else i;
            turns >= k ==>
              Pass(schema, st, s, k).Ok? &&
              Repeat(schema, st, s, 1, turns) == Effect(Copies(st.loopId, k), Finished(Pass(schema, st, s, k).value))
  {
    var k: nat := if st.maxIterations < i then st.maxIterations else i;
    if turns >= k {
      assert k < i ==> StillTrue(schema, st, s, k);
      RepeatFrom(schema, st, s, 0, k, turns);
    }
  }

  /** If the condition never turns false, M passes are made. */
  lemma LoopExhausts(schema: Schema, st: Stage, s: State, turns: int)
    requires st.Loop? && turns >= st.maxIterations >= 1
    requires forall j: nat :: 1 <= j < st.maxIterations ==> StillTrue(schema, st, s, j)
    requires Pass(schema, st, s, st.maxIterations).Ok?
    ensures Repeat(schema, st, s, 1, turns) ==
            Effect(Copies(st.loopId, st.maxIterations), Finished(Pass(schema, st, s, st.maxIterations).value))
  {
    RepeatFrom(schema, st, s, 0, st.maxIterations, turns);
  }

  lemma AgreesWithLoop(r: RunResult, q: Progress, ids: seq<string>, t: State)
    requires Agrees(r, q, Effect(ids, Finished(t)))
    ensures r.outcome == Finished(t) && r.progress.order == q.order + ids && r.progress.counters == map[]
  {
  }

  /**
   The same for the engine: entering a loop stage of a compiled program with no counter of its own, the run makes just
   those passes if it has the turns, ends in the state after them, and leaves no counter.
   */
  lemma LoopRuns(p: seq<Stage>, g: Graph, n: nat, s: State, q: Progress, i: nat)
    requires p != [] && Realizes(p, g) && n < |p| && p[n].Loop? && q.counters == map[]
    requires p[n].maxIterations >= 1 && i >= 1
    requires forall j: nat :: 1 <= j < i ==> StillTrue(g.schema, p[n], s, j)
    requires Pass(g.schema, p[n], s, i).Ok? && !StillTrue(g.schema, p[n], s, i)
    ensures var k := if p[n].maxIterations < i then p[n].maxIterations else i;
            g.maxTurns - q.turn >= k ==>
              var r := Run(Erase(g), Config(At(p[n].loopId), s, q), false);
              && Pass(g.schema, p[n], s, k).Ok? && r.outcome == Finished(Pass(g.schema, p[n], s, k).value)
              && r.progress.order == q.order + Copies(p[n].loopId, k) && r.progress.counters == map[]
  {
    var k: nat := if p[n].maxIterations < i then p[n].maxIterations else i;
    if g.maxTurns - q.turn >= k {
      LoopPasses(g.schema, p[n], s, i, g.maxTurns - q.turn);
      RepeatRuns(p, g, n, s, q, 1);
      AgreesWithLoop(Run(Erase(g), Config(At(p[n].loopId), s, q), false), q,
                     Copies(p[n].loopId, k), Pass(g.schema, p[n], s, k).value);
    }
  }

  /** In the meaning of a program, nothing follows a loop. */
  lemma {:induction false} NothingFollowsLoop(schema: Schema, p: seq<Stage>, i: nat, s: State, turns: int)
    requires i < |p| && p[i].Loop?
    ensures Meaning(schema, p, s, turns) == Meaning(schema, p[..i + 1], s, turns)
    decreases i
  {
    var q := p[..i + 1];
    forall t: State ensures Enter(schema, p, t, turns) == Enter(schema, q, t, turns) {
      if i > 0 && !p[0].Loop? {
        var executed := Execute(schema, MainId(p[0]), MainNode(p[0]), t);
        if executed.Ok? {
          assert q[1..] == p[1..][..i];
          NothingFollowsLoop(schema, p[1..], i - 1, executed.value, turns - 1);
        }
      }
    }
  }

  lemma {:induction false} PrefixWellFormed(p: seq<Stage>, k: nat)
    requires WellFormed(p) && 0 < k <= |p|
    ensures WellFormed(p[..k])
    decreases |p| - k
  {
    if k == |p| {
      assert p[..k] == p;
    } else {
      PrefixWellFormed(p, k + 1);
      assert p[..k + 1] == p[..k] + [p[k]];
      SnocIds(p[..k], p[k]);
    }
  }

  /** Stages after a loop never run: the compiled program does what it does when they are left out. */
  lemma {:induction false} StagesAfterLoopNeverRun(p: seq<Stage>, i: nat, schema: Schema, maxTurns: int, s: State)
    requires WellFormed(p) && i < |p| && p[i].Loop?
    ensures var g, h := Compiled(Build(p).b, schema, maxTurns), Compiled(Build(p[..i + 1]).b, schema, maxTurns);
            && g.Ok? && h.Ok?
            && var r := Run(Erase(g.value), Config(At(g.value.entry), s, FRESH), false);
            && var u := Run(Erase(h.value), Config(At(h.value.entry), s, FRESH), false);
            && r.outcome == u.outcome && r.progress.order == u.progress.order
  {
    PrefixWellFormed(p, i + 1);
    CompileThenRun(p, schema, maxTurns, s);
    CompileThenRun(p[..i + 1], schema, maxTurns, s);
    NothingFollowsLoop(schema, p, i, s, maxTurns);
  }

  ghost predicate NoLoopBeforeEnd(p: seq<Stage>) {
    forall i :: 0 <= i < |p| - 1 ==> !p[i].Loop?
  }

  ghost predicate Visits(order: seq<string>, p: seq<Stage>) {
    forall i :: 0 <= i < |p| ==> MainId(p[i]) in order
  }

  lemma {:induction false} RepeatVisits(schema: Schema, st: Stage, s: State, pass: nat, turns: int)
    requires st.Loop?
    ensures var e := Repeat(schema, st, s, pass, turns);
            && (forall id :: id in e.order ==> id == st.loopId)
            && (e.outcome.Finished? ==> st.loopId in e.order)
    decreases turns
  {
    if turns > 0 && Execute(schema, st.loopId, st.loopNode, s).Ok? {
      RepeatVisits(schema, st, Execute(schema, st.loopId, st.loopNode, s).value, pass + 1, turns - 1);
    }
  }

  /** A program visits main nodes of its stages only. */
  lemma {:induction false} VisitsOwnStages(schema: Schema, p: seq<Stage>, s: State, turns: int, id: string)
    requires id in Meaning(schema, p, s, turns).order
    ensures exists i :: 0 <= i < |p| && MainId(p[i]) == id
    decreases |p|
  {
    var arrival := if p[0].Fan? then MergeBranches(schema, s, BranchOutputs(p[0].branches, s)).value else s;
    assert Meaning(schema, p, s, turns) == Enter(schema, p, arrival, turns);
    if p[0].Loop? {
      RepeatVisits(schema, p[0], arrival, 1, turns);
    } else if id != MainId(p[0]) {
      var t := Execute(schema, MainId(p[0]), MainNode(p[0]), arrival).value;
      VisitsOwnStages(schema, p[1..], t, turns - 1, id);
      var i :| 0 <= i < |p[1..]| && MainId(p[1..][i]) == id;
      assert MainId(p[i + 1]) == id;
    }
  }

  /** Without a loop before its last stage, a program that finishes has visited every stage. */
  lemma {:induction false} FinishingVisitsAll(schema: Schema, p: seq<Stage>, s: State, turns: int)
    requires NoLoopBeforeEnd(p) && Meaning(schema, p, s, turns).outcome.Finished?
    ensures Visits(Meaning(schema, p, s, turns).order, p)
    decreases |p|
  {
    if p == [] {
    } else if p[0].Loop? {
      RepeatVisits(schema, p[0], s, 1, turns);
    } else {
      var t := FinishesThrough(schema, p, s, turns);
      assert forall i :: 0 <= i < |p[1..]| - 1 ==> p[1..][i] == p[i + 1];
      FinishingVisitsAll(schema, p[1..], t, turns - 1);
      VisitsOneMore(p, Meaning(schema, p[1..], t, turns - 1).order);
    }
  }

  lemma VisitsOneMore(p: seq<Stage>, order: seq<string>)
    requires p != [] && Visits(order, p[1..])
    ensures Visits([MainId(p[0])] + order, p)
  {
    forall i | 0 <= i < |p| ensures MainId(p[i]) in [MainId(p[0])] + order {
      if i > 0 {
        assert p[i] == p[1..][i - 1];
      }
    }
  }

  /** A program that finishes goes through its first stage, which is not a loop, to the rest of it. */
  lemma FinishesThrough(schema: Schema, p: seq<Stage>, s: State, turns: int) returns (t: State)
    requires p != [] && !p[0].Loop? && Meaning(schema, p, s, turns).outcome.Finished?
    ensures Meaning(schema, p, s, turns) == Through(MainId(p[0]), Meaning(schema, p[1..], t, turns - 1))
  {
    var arrival := if p[0].Fan? then MergeBranches(schema, s, BranchOutputs(p[0].branches, s)).value else s;
    assert Meaning(schema, p, s, turns) == Enter(schema, p, arrival, turns);
    t := Execute(schema, MainId(p[0]), MainNode(p[0]), arrival).value;
  }

  /** A compiled program that finishes has run all its stages if and only if none but the last is a loop. */
  lemma {:induction false} AllStagesRunExactly(p: seq<Stage>, schema: Schema, maxTurns: int, s: State)
    requires WellFormed(p) && Meaning(schema, p, s, maxTurns).outcome.Finished?
    ensures var g := Compiled(Build(p).b, schema, maxTurns);
            && g.Ok?
            && var r := Run(Erase(g.value), Config(At(g.value.entry), s, FRESH), false);
            && r.outcome.Finished? && (Visits(r.progress.order, p) <==> NoLoopBeforeEnd(p))
  {
    CompileThenRun(p, schema, maxTurns, s);
    var g := Compiled(Build(p).b, schema, maxTurns).value;
    AgreesFresh(Run(Erase(g), Config(At(g.entry), s, FRESH), false), Meaning(schema, p, s, maxTurns));
    if NoLoopBeforeEnd(p) {
      FinishingVisitsAll(schema, p, s, maxTurns);
    } else {
      var i :| 0 <= i < |p| - 1 && p[i].Loop?;
      NextStageNotVisited(p, schema, maxTurns, s, i);
    }
  }

  lemma MainsDiffer(p: seq<Stage>, i: nat, j: nat)
    requires WellFormed(p) && i < j < |p|
    ensures MainId(p[i]) != MainId(p[j])
  {
    BuildSucceeds(p);
  }

  lemma NextStageNotVisited(p: seq<Stage>, schema: Schema, maxTurns: int, s: State, i: nat)
    requires WellFormed(p) && i + 1 < |p| && p[i].Loop?
    ensures MainId(p[i + 1]) !in Meaning(schema, p, s, maxTurns).order
  {
    var id, q := MainId(p[i + 1]), p[..i + 1];
    NothingFollowsLoop(schema, p, i, s, maxTurns);
    if id in Meaning(schema, q, s, maxTurns).order {
      forall j | 0 <= j < |q| ensures MainId(q[j]) != id {
        MainsDiffer(p, j, i + 1);
      }
      VisitsOwnStages(schema, q, s, maxTurns, id);
    }
  }

  const STEP: Node := Node((_: State) => Ok([]), false, false)

  /** "a", then one pass of a loop over "b", then "c". */
  const LOOP_IN_THE_MIDDLE: seq<Stage> :=
    [Then("a", STEP), Loop("b", STEP, (_: State) => true, 1), Then("c", STEP)]

  lemma LoopInTheMiddleIsWellFormed()
    ensures WellFormed(LOOP_IN_THE_MIDDLE)
  {
    var p := LOOP_IN_THE_MIDDLE;
    assert p[..2][..1] == p[..1] && p[..1][..0] == [];
    assert AllIds(p[..1]) == ["a"] && AllIds(p[..2]) == ["a", "b"] && AllIds(p) == ["a", "b", "c"];
  }

  lemma LoopInTheMiddleMeans(schema: Schema, maxTurns: int, s: State)
    requires maxTurns >= 2
    ensures Meaning(schema, LOOP_IN_THE_MIDDLE, s, maxTurns) == Effect(["a", "b"], Finished(s))
  {
    var p := LOOP_IN_THE_MIDDLE;
    assert p[1..][0] == p[1] && Repeat(schema, p[1], s, 1, maxTurns - 1) == Effect(["b"], Finished(s));
    assert Meaning(schema, p[1..], s, maxTurns - 1) == Effect(["b"], Finished(s));
    assert ["a"] + ["b"] == ["a", "b"];
  }

  /** It finishes, and its last stage is never run. */
  lemma LastStageNeverRuns(schema: Schema, maxTurns: int, s: State)
    requires maxTurns >= 2
    ensures var g := Compiled(Build(LOOP_IN_THE_MIDDLE).b, schema, maxTurns);
            && g.Ok?
            && var r := Run(Erase(g.value), Config(At(g.value.entry), s, FRESH), false);
            && r.outcome == Finished(s) && r.progress.order == ["a", "b"]
  {
    LoopInTheMiddleIsWellFormed();
    LoopInTheMiddleMeans(schema, maxTurns, s);
    CompileThenRun(LOOP_IN_THE_MIDDLE, schema, maxTurns, s);
    var g := Compiled(Build(LOOP_IN_THE_MIDDLE).b, schema, maxTurns).value;
    AgreesFresh(Run(Erase(g), Config(At(g.entry), s, FRESH), false), Effect(["a", "b"], Finished(s)));
  }

  // ---- Programs with interrupts ----

  /** Every interrupt_after stage is followed by a then or a loop, and is not itself a loop or a branch. */
  ghost predicate PausesBetweenStages(p: seq<Stage>) {
    && (forall i :: 0 <= i < |p| && MainNode(p[i]).interruptAfter ==> !p[i].Loop? && i + 1 < |p| && !p[i + 1].Fan?)
    && (forall i, br :: 0 <= i < |p| && p[i].Fan? && br in p[i].branches ==> !br.1.interruptAfter)
  }

  lemma {:induction false} StageOf(p: seq<Stage>, id: string) returns (i: nat)
    requires id in AllIds(p)
    ensures i < |p| && id in Ids(p[i])
    decreases |p|
  {
    if id in Ids(p[|p| - 1]) {
      i := |p| - 1;
    } else {
      i := StageOf(p[..|p| - 1], id);
    }
  }

  lemma BranchesDoNotPause(p: seq<Stage>, g: Graph, i: nat, id: string)
    requires p != [] && Realizes(p, g) && PausesBetweenStages(p)
    requires i < |p| && id in Ids(p[i]) && id != MainId(p[i])
    ensures id in g.nodes && !g.nodes[id].interruptAfter
  {
    assert HasNodes(g.nodes, p[i]);
    var j :| 0 <= j < |p[i].branches| && p[i].branches[j].0 == id;
    assert p[i].branches[j] in p[i].branches;
  }

  lemma {:induction false} PausesHavePlainExits(p: seq<Stage>, g: Graph)
    requires p != [] && Realizes(p, g) && PausesBetweenStages(p)
    requires forall id :: id in g.nodes ==> id in AllIds(p)
    ensures PlainExits(g)
  {
    forall id | id in g.nodes && g.nodes[id].interruptAfter
      ensures var out := OutEdges(g.edges, id); out != [] && out[0].Direct? && out[0].target.At?
    {
      var i := StageOf(p, id);
      assert HasNodes(g.nodes, p[i]);
      if id != MainId(p[i]) {
        BranchesDoNotPause(p, g, i, id);
      }
      assert OutEdges(g.edges, MainId(p[i]))[0] == FirstExit(p, i);
    }
  }

  /** A program with interrupts, paused and resumed until done, still has its direct meaning. */
  lemma PausedProgramMeaning(p: seq<Stage>, schema: Schema, maxTurns: int, s: State)
    requires WellFormed(p) && PausesBetweenStages(p) && Meaning(schema, p, s, maxTurns).outcome.Finished?
    ensures var g := Compiled(Build(p).b, schema, maxTurns);
            g.Ok? && exists n: nat ::
              var r := Chain(g.value, Config(At(g.value.entry), s, FRESH), false, n);
              var m := Meaning(schema, p, s, maxTurns);
              r.outcome == m.outcome && r.progress.order == m.order && r.progress.counters == map[]
  {
    CompileSucceeds(p, schema, maxTurns);
    CompileThenRun(p, schema, maxTurns, s);
    var g := Compiled(Build(p).b, schema, maxTurns).value;
    var c := Config(At(g.entry), s, FRESH);
    PausesHavePlainExits(p, g);
    PlainExitsSuffice(g, c);
    ResumeTransparency(g, c);
    var n: nat :| SameCompletion(Chain(g, c, false, n), Run(Erase(g), c, false));
    var m := Meaning(schema, p, s, maxTurns);
    assert Chain(g, c, false, n).progress.order == [] + m.order == m.order;
  }
}
