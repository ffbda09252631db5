/**
 Interrupt and resume: when does a run that is paused and resumed, any number of times,
 do what the same run does with every interrupt flag erased?
 */
module Interrupts {
  import opened Wrappers
  import opened WorkflowState
  import opened Edges
  import opened Engine

  function EraseNode(n: Node): Node {
    n.(interruptBefore := false, interruptAfter := false)
  }

  /** The graph with all interrupt flags off. */
  function Erase(g: Graph): Graph {
    g.(nodes := map id | id in g.nodes :: EraseNode(g.nodes[id]))
  }

  /** Run, then resume from each checkpoint in turn, at most n times. */
  function Chain(g: Graph, c: Config, bypass: bool, n: nat): RunResult
    decreases n
  {
    var r := Run(g, c, bypass);
    if n == 0 || !r.outcome.Interrupted? then r else
    var cp := r.outcome.checkpoint;
    Prepend(r.visits, Chain(g, Resumed(cp), cp.kind.Before?, n - 1))
  }

  function Prepend(visits: seq<Visit>, r: RunResult): RunResult {
    r.(visits := visits + r.visits)
  }

  /** Same node calls on the same inputs, same final state, order and loop counters; turns may differ. */
  ghost predicate SameCompletion(r: RunResult, u: RunResult) {
    && r.visits == u.visits && r.outcome == u.outcome && u.outcome.Finished?
    && r.progress.order == u.progress.order && r.progress.counters == u.progress.counters
  }

  ghost predicate SameButTurn(c: Config, d: Config) {
    && c.at == d.at && c.state == d.state
    && c.progress.order == d.progress.order && c.progress.counters == d.progress.counters
  }

  // ---- Where a pause after a node loses something ----

  /**
   An exit the after-interrupt checkpoint records faithfully: it leads to a node, not to END,
   and resolving it (a fan-out may) does not change the state the checkpoint keeps.
   */
  ghost predicate FaithfulExit(g: Graph, c: Config)
    requires c.at.At?
  {
    var step := Step(Erase(g), c, false);
    step.Moved? && c.at.id in g.nodes && g.nodes[c.at.id].interruptAfter ==>
      step.next.at.At? && Execute(g.schema, c.at.id, g.nodes[c.at.id], c.state) == Ok(step.next.state)
  }

  /** Every exit the erased run takes out of an interrupt_after node is faithful. */
  ghost predicate FaithfulExits(g: Graph, c: Config)
    decreases g.maxTurns - c.progress.turn
  {
    c.at.At? && c.progress.turn < g.maxTurns ==>
      FaithfulExit(g, c) &&
      var step := Step(Erase(g), c, false);
      step.Moved? ==> FaithfulExits(g, step.next)
  }

  /** Leaving by a plain or conditional edge keeps the state, so such an exit is faithful unless it reaches END. */
  lemma PlainExitIsFaithful(g: Graph, c: Config)
    requires c.at.At? && Step(Erase(g), c, false).Moved?
    requires var out := OutEdges(g.edges, c.at.id); out != [] && !out[0].Parallel?
    requires Step(Erase(g), c, false).next.at.At?
    ensures FaithfulExit(g, c)
  {
  }

  // ---- Erasing flags, restarting the turn counter ----

  lemma {:induction false} UnknownIgnoresFlags(g: Graph, targets: seq<Target>)
    ensures FirstUnknown(Erase(g), targets) == FirstUnknown(g, targets)
  {
    if targets != [] {
      UnknownIgnoresFlags(g, targets[1..]);
    }
  }

  lemma NextIgnoresFlags(g: Graph, id: string, s: State, counters: Counters)
    ensures Next(Erase(g), id, s, counters) == Next(g, id, s, counters)
  {
    var out := OutEdges(g.edges, id);
    if out != [] && out[0].Parallel? {
      var targets := out[0].targets;
      UnknownIgnoresFlags(g, targets);
      if FirstUnknown(g, targets).None? {
        FirstUnknownNone(g, targets);
        forall i | 0 <= i < |targets|
          ensures BranchResults(Erase(g), targets, s)[i] == BranchResults(g, targets, s)[i]
        {
          assert IsNode(g, targets[i]);
        }
        assert BranchResults(Erase(g), targets, s) == BranchResults(g, targets, s);
      }
    }
  }

  /** With the flags back on, a step pauses before, pauses after, or moves as the erased step does. */
  lemma StepAgainstErased(g: Graph, c: Config, bypass: bool)
    requires c.at.At? && Step(Erase(g), c, false).Moved?
    ensures c.at.id in g.nodes
    ensures var n, step, erased := g.nodes[c.at.id], Step(g, c, bypass), Step(Erase(g), c, false);
            var p, q := c.progress, erased.next.progress;
            if n.interruptBefore && !bypass then
              step == Stopped(Interrupted(Checkpoint(c.at.id, Before, c.state, p.counters, p.order)),
                              p.(turn := p.turn + 1), [])
            else if n.interruptAfter then
              Execute(g.schema, c.at.id, n, c.state).Ok? &&
              step == Stopped(Interrupted(Checkpoint(TargetName(erased.next.at), After,
                                                     Execute(g.schema, c.at.id, n, c.state).value,
                                                     q.counters, q.order)),
                              q, [erased.visit])
            else step == erased
  {
    if Execute(g.schema, c.at.id, g.nodes[c.at.id], c.state).Ok? {
      NextIgnoresFlags(g, c.at.id, Execute(g.schema, c.at.id, g.nodes[c.at.id], c.state).value, c.progress.counters);
    }
  }

  /** A run without pauses that finishes does so from a smaller turn number too. */
  lemma {:induction false} EarlierTurn(g: Graph, c: Config, d: Config)
    requires Run(g, c, false).outcome.Finished?
    requires SameButTurn(c, d) && d.progress.turn <= c.progress.turn
    ensures SameCompletion(Run(g, d, false), Run(g, c, false))
    decreases g.maxTurns - c.progress.turn
  {
    if c.at.At? && c.progress.turn < g.maxTurns {
      assert Step(g, c, false).Moved?;
      EarlierTurn(g, Step(g, c, false).next, Step(g, d, false).next);
    }
  }

  lemma {:induction false} FaithfulFromEarlierTurn(g: Graph, c: Config, d: Config)
    requires Run(Erase(g), c, false).outcome.Finished?
    requires SameButTurn(c, d) && d.progress.turn <= c.progress.turn
    ensures FaithfulExits(g, d) == FaithfulExits(g, c)
    decreases g.maxTurns - c.progress.turn
  {
    if c.at.At? && c.progress.turn < g.maxTurns {
      var e := Erase(g);
      assert Step(e, c, false).Moved? && Step(e, d, false).Moved?;
      FaithfulFromEarlierTurn(g, Step(e, c, false).next, Step(e, d, false).next);
    }
  }

  // ---- How a chain of resumes unfolds ----

  lemma ChainMoves(g: Graph, c: Config, bypass: bool, n: nat)
    requires c.at.At? && c.progress.turn < g.maxTurns && Step(g, c, bypass).Moved?
    ensures var step := Step(g, c, bypass);
            Chain(g, c, bypass, n) == Prepend([step.visit], Chain(g, step.next, false, n))
  {
    var step := Step(g, c, bypass);
    var rest := Run(g, step.next, false);
    if n > 0 && rest.outcome.Interrupted? {
      var cp := rest.outcome.checkpoint;
      var later := Chain(g, Resumed(cp), cp.kind.Before?, n - 1);
      assert [step.visit] + rest.visits + later.visits == [step.visit] + (rest.visits + later.visits);
    }
  }

  lemma ChainPauses(g: Graph, c: Config, bypass: bool, n: nat)
    requires c.at.At? && c.progress.turn < g.maxTurns
    requires Step(g, c, bypass).Stopped? && Step(g, c, bypass).outcome.Interrupted?
    ensures var step := Step(g, c, bypass);
            var cp := step.outcome.checkpoint;
            Chain(g, c, bypass, n) ==
              if n == 0 then Run(g, c, bypass)
              else Prepend(step.visits, Chain(g, Resumed(cp), cp.kind.Before?, n - 1))
  {
  }

  // ---- Transparency ----

  /** Where a faithful pause resumes: at the same configuration, but for the turn number. */
  lemma PauseResumesInPlace(g: Graph, c: Config, bypass: bool) returns (from: Config)
    requires c.at.At? && Step(Erase(g), c, false).Moved? && FaithfulExit(g, c)
    requires Step(g, c, bypass).Stopped?
    ensures var step, erased := Step(g, c, bypass), Step(Erase(g), c, false);
            step.outcome.Interrupted? &&
            var cp := step.outcome.checkpoint;
            && SameButTurn(from, Resumed(cp))
            && from == (if cp.kind.Before? then c else erased.next)
            && step.visits == (if cp.kind.Before? then [] else [erased.visit])
            && (cp.kind.Before? ==> !bypass)
  {
    StepAgainstErased(g, c, bypass);
    from := if Step(g, c, bypass).outcome.checkpoint.kind.Before? then c else Step(Erase(g), c, false).next;
  }

  /** If every exit is faithful, enough resumes complete exactly as the erased run does. */
  lemma {:induction false} ResumingCompletes(g: Graph, c: Config, bypass: bool, n: nat)
    requires Run(Erase(g), c, false).outcome.Finished? && FaithfulExits(g, c)
    requires n >= 2 * |Run(Erase(g), c, false).visits| + if bypass then 0 else 1
    ensures SameCompletion(Chain(g, c, bypass, n), Run(Erase(g), c, false))
    decreases |Run(Erase(g), c, false).visits|, !bypass
  {
    if c.at.At? {
      var e := Erase(g);
      var step, erased := Step(g, c, bypass), Step(e, c, false);
      if step.Moved? {
        StepAgainstErased(g, c, bypass);
        ChainMoves(g, c, bypass, n);
        ResumingCompletes(g, step.next, false, n);
      } else {
        var from := PauseResumesInPlace(g, c, bypass);
        var d := Resumed(step.outcome.checkpoint);
        ChainPauses(g, c, bypass, n);
        EarlierTurn(e, from, d);
        FaithfulFromEarlierTurn(g, from, d);
        ResumingCompletes(g, d, from == c, n - 1);
      }
    }
  }

  /** A chain that completes starts with a call of the node it starts at, on the state it starts with. */
  lemma {:induction false} FirstVisit(g: Graph, c: Config, bypass: bool, n: nat)
    requires c.at.At? && Chain(g, c, bypass, n).outcome.Finished?
    ensures var visits := Chain(g, c, bypass, n).visits;
            visits != [] && visits[0] == Visit(c.at.id, c.state)
    decreases n
  {
    var step := Step(g, c, bypass);
    if step.Moved? {
      ChainMoves(g, c, bypass, n);
    } else {
      assert step.outcome.Interrupted?;
      ChainPauses(g, c, bypass, n);
      if step.visits == [] {
        FirstVisit(g, Resumed(step.outcome.checkpoint), true, n - 1);
      }
    }
  }

  /** One unfaithful exit on the way, and no number of resumes reproduces the erased run. */
  lemma {:induction false} UnfaithfulNeverCompletes(g: Graph, c: Config, bypass: bool, n: nat)
    requires Run(Erase(g), c, false).outcome.Finished? && !FaithfulExits(g, c)
    ensures !SameCompletion(Chain(g, c, bypass, n), Run(Erase(g), c, false))
    decreases |Run(Erase(g), c, false).visits|, n, !bypass, 1
  {
    var step, erased := Step(g, c, bypass), Step(Erase(g), c, false);
    StepAgainstErased(g, c, bypass);
    if step.Moved? {
      ChainMoves(g, c, bypass, n);
      UnfaithfulNeverCompletes(g, step.next, false, n);
      SameTail(step.visit, Chain(g, step.next, false, n), Run(Erase(g), erased.next, false));
    } else if Chain(g, c, bypass, n).outcome.Finished? {
      UnfaithfulPause(g, c, bypass, n);
    }
  }

  lemma {:induction false} UnfaithfulPause(g: Graph, c: Config, bypass: bool, n: nat)
    requires Run(Erase(g), c, false).outcome.Finished? && !FaithfulExits(g, c)
    requires c.at.At? && c.progress.turn < g.maxTurns && Step(Erase(g), c, false).Moved?
    requires Step(g, c, bypass).Stopped? && Chain(g, c, bypass, n).outcome.Finished?
    ensures !SameCompletion(Chain(g, c, bypass, n), Run(Erase(g), c, false))
    decreases |Run(Erase(g), c, false).visits|, n, !bypass, 0
  {
    var step, next := Step(g, c, bypass), Step(Erase(g), c, false).next;
    StepAgainstErased(g, c, bypass);
    FirstVisitAfterPause(g, c, bypass, n);
    var cp := step.outcome.checkpoint;
    if cp.kind.Before? {
      EarlierTurn(Erase(g), c, Resumed(cp));
      FaithfulFromEarlierTurn(g, c, Resumed(cp));
      UnfaithfulNeverCompletes(g, Resumed(cp), true, n - 1);
    } else if FaithfulExit(g, c) {
      EarlierTurn(Erase(g), next, Resumed(cp));
      FaithfulFromEarlierTurn(g, next, Resumed(cp));
      UnfaithfulNeverCompletes(g, Resumed(cp), false, n - 1);
      SameTail(step.visits[0], Chain(g, Resumed(cp), false, n - 1), Run(Erase(g), next, false));
    } else {
      WrongFirstVisit(g, c, bypass, n);
    }
  }

  /** After an unfaithful exit the next call is of the wrong node, or of the right one on the wrong state. */
  lemma WrongFirstVisit(g: Graph, c: Config, bypass: bool, n: nat)
    requires Run(Erase(g), c, false).outcome.Finished? && c.at.At? && !FaithfulExit(g, c)
    requires g.nodes[c.at.id].interruptBefore ==> bypass
    requires Chain(g, c, bypass, n).outcome.Finished?
    ensures Chain(g, c, bypass, n).visits != Run(Erase(g), c, false).visits
  {
    var erased := Step(Erase(g), c, false);
    StepAgainstErased(g, c, bypass);
    FirstVisitAfterPause(g, c, bypass, n);
    var cp := Step(g, c, bypass).outcome.checkpoint;
    var later, rest := Chain(g, Resumed(cp), false, n - 1).visits, Run(Erase(g), erased.next, false).visits;
    assert ([erased.visit] + later)[1..] == later && ([erased.visit] + rest)[1..] == rest;
    if erased.next.at.At? {
      assert Step(Erase(g), erased.next, false).Moved?;
    }
  }

  lemma SameTail(visit: Visit, r: RunResult, u: RunResult)
    ensures SameCompletion(Prepend([visit], r), Prepend([visit], u)) ==> SameCompletion(r, u)
  {
    assert ([visit] + r.visits)[1..] == r.visits && ([visit] + u.visits)[1..] == u.visits;
  }

  lemma FirstVisitAfterPause(g: Graph, c: Config, bypass: bool, n: nat)
    requires c.at.At? && c.progress.turn < g.maxTurns
    requires Step(g, c, bypass).Stopped? && Step(g, c, bypass).outcome.Interrupted?
    requires Chain(g, c, bypass, n).outcome.Finished?
    ensures n > 0
    ensures var step, cp := Step(g, c, bypass), Step(g, c, bypass).outcome.checkpoint;
            var later := Chain(g, Resumed(cp), cp.kind.Before?, n - 1);
            && later.outcome.Finished? && later.visits != [] && later.visits[0] == Visit(cp.node, cp.state)
            && Chain(g, c, bypass, n) == Prepend(step.visits, later)
  {
    ChainPauses(g, c, bypass, n);
    var cp := Step(g, c, bypass).outcome.checkpoint;
    FirstVisit(g, Resumed(cp), cp.kind.Before?, n - 1);
  }

  /** Some number of resumes reproduces the erased run. */
  ghost predicate Transparent(g: Graph, c: Config) {
    exists n: nat :: SameCompletion(Chain(g, c, false, n), Run(Erase(g), c, false))
  }

  /**
   Interrupt/resume transparency. When the run with all flags erased finishes, pausing and resuming
   without edits ends with the same node calls, final state, order and loop counters
   if and only if every exit it takes out of an interrupt_after node is faithful.
   */
  lemma ResumeTransparency(g: Graph, c: Config)
    requires Run(Erase(g), c, false).outcome.Finished?
    ensures Transparent(g, c) <==> FaithfulExits(g, c)
  {
    if FaithfulExits(g, c) {
      var n := 2 * |Run(Erase(g), c, false).visits| + 1;
      ResumingCompletes(g, c, false, n);
    } else if Transparent(g, c) {
      var n: nat :| SameCompletion(Chain(g, c, false, n), Run(Erase(g), c, false));
      UnfaithfulNeverCompletes(g, c, false, n);
    }
  }

  // ---- A condition on the graph alone ----

  /** Every interrupt_after node leaves by a plain or conditional edge that leads to a node. */
  ghost predicate PlainExits(g: Graph) {
    forall id :: id in g.nodes && g.nodes[id].interruptAfter ==>
      var out := OutEdges(g.edges, id);
      out != [] &&
      match out[0]
      case Direct(_, target) => target.At?
      case Conditional(_, _, _) => forall s, cs :: ResolveEdge(out[0], s, cs).0 != Ok(End)
      case Parallel(_, _, _) => false
  }

  lemma {:induction false} PlainExitsSuffice(g: Graph, c: Config)
    requires PlainExits(g)
    ensures FaithfulExits(g, c)
    decreases g.maxTurns - c.progress.turn
  {
    if c.at.At? && c.progress.turn < g.maxTurns && Step(Erase(g), c, false).Moved? {
      if g.nodes[c.at.id].interruptAfter {
        PlainExitIsFaithful(g, c);
      }
      PlainExitsSuffice(g, Step(Erase(g), c, false).next);
    }
  }
}
