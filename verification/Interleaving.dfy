/** Runs of one compiled graph at the same time: each has its own context (src/orchestra/core/compiled.py). */
module Interleaving {
  import opened Wrappers
  import opened WorkflowState
  import opened Edges
  import opened Engine

  /** A run between two iterations of its loop, or over. */
  datatype Live = Going(c: Config, bypass: bool) | Over(outcome: Outcome, progress: Progress)

  /** One iteration of the loop of a run. */
  function Tick(g: Graph, r: Live): Live {
    match r
    case Over(_, _) => r
    case Going(c, bypass) =>
      if c.at.End? then Over(Finished(c.state), c.progress)
      else if c.progress.turn >= g.maxTurns then Over(Failed(MaxIterations(c.at.id)), c.progress)
      else
        match Step(g, c, bypass)
        case Stopped(outcome, progress, _) => Over(outcome, progress)
        case Moved(next, _) => Going(next, false)
  }

  function Ticks(g: Graph, r: Live, n: nat): Live {
    if n == 0 then r else Tick(g, Ticks(g, r, n - 1))
  }

  /** How often the run comes up in the schedule. */
  function Count(schedule: seq<nat>, i: nat): nat {
    if schedule == [] then 0
    else Count(schedule[..|schedule| - 1], i) + (if schedule[|schedule| - 1] == i then 1 else 0)
  }

  /** The event loop: at each point the scheduled run makes one iteration. */
  function Interleaved(g: Graph, runs: seq<Live>, schedule: seq<nat>): (r: seq<Live>)
    ensures |r| == |runs|
  {
    if schedule == [] then runs
    else
      var before, i := Interleaved(g, runs, schedule[..|schedule| - 1]), schedule[|schedule| - 1];
      if i < |before| then before[i := Tick(g, before[i])] else before
  }

  /** Whatever the schedule, each run is where its own iterations alone would have brought it. */
  lemma {:induction false} RunsDoNotMeet(g: Graph, runs: seq<Live>, schedule: seq<nat>, i: nat)
    requires i < |runs|
    ensures Interleaved(g, runs, schedule)[i] == Ticks(g, runs[i], Count(schedule, i))
    decreases |schedule|
  {
    if schedule != [] {
      RunsDoNotMeet(g, runs, schedule[..|schedule| - 1], i);
    }
  }

  lemma {:induction false} TickFirst(g: Graph, r: Live, n: nat)
    ensures Ticks(g, Tick(g, r), n) == Ticks(g, r, n + 1)
  {
    if n > 0 {
      TickFirst(g, r, n - 1);
    }
  }

  lemma {:induction false} OverStays(g: Graph, r: Live, n: nat)
    requires r.Over?
    ensures Ticks(g, r, n) == r
  {
    if n > 0 {
      OverStays(g, r, n - 1);
    }
  }

  /** Enough iterations bring a run to its end. */
  lemma {:induction false} TicksReachEnd(g: Graph, c: Config, bypass: bool, n: nat)
    requires n > g.maxTurns - c.progress.turn && n > 0
    ensures var r := Run(g, c, bypass); Ticks(g, Going(c, bypass), n) == Over(r.outcome, r.progress)
    decreases n
  {
    var next := Tick(g, Going(c, bypass));
    TickFirst(g, Going(c, bypass), n - 1);
    if next.Over? {
      OverStays(g, next, n - 1);
    } else {
      TicksReachEnd(g, next.c, false, n - 1);
    }
  }

  function Starting(starts: seq<Config>): seq<Live> {
    seq(|starts|, j requires 0 <= j < |starts| => Going(starts[j], false))
  }

  /** The run comes up more often than it has turns left. */
  predicate OftenEnough(g: Graph, start: Config, schedule: seq<nat>, i: nat) {
    Count(schedule, i) > 0 && Count(schedule, i) > g.maxTurns - start.progress.turn
  }

  /** How the run ends when no other is there. */
  function Alone(g: Graph, start: Config): Live {
    var r := Run(g, start, false);
    Over(r.outcome, r.progress)
  }

  /**
   Any number of runs of one graph, interleaved in any way that lets each of them go on long enough: each ends as it
   does alone, with its own order and its own loop counters.
   */
  lemma InterleavedRunsEndAsAlone(g: Graph, starts: seq<Config>, schedule: seq<nat>, i: nat)
    requires i < |starts| && OftenEnough(g, starts[i], schedule, i)
    ensures Interleaved(g, Starting(starts), schedule)[i] == Alone(g, starts[i])
  {
    RunsDoNotMeet(g, Starting(starts), schedule, i);
    TicksReachEnd(g, starts[i], false, Count(schedule, i));
  }

  lemma AllEndAsAlone(g: Graph, starts: seq<Config>, schedule: seq<nat>)
    ensures forall i :: 0 <= i < |starts| && OftenEnough(g, starts[i], schedule, i) ==>
              Interleaved(g, Starting(starts), schedule)[i] == Alone(g, starts[i])
  {
    forall i | 0 <= i < |starts| && OftenEnough(g, starts[i], schedule, i)
      ensures Interleaved(g, Starting(starts), schedule)[i] == Alone(g, starts[i])
    {
      InterleavedRunsEndAsAlone(g, starts, schedule, i);
    }
  }

  // ---- On the engine's objects ----

  function ProgressOf(r: Live): Progress {
    match r case Going(c, _) => c.progress case Over(_, progress) => progress
  }

  /** What the store keeps for a run: its checkpoint if it ended in a pause, else what was there. */
  predicate Kept(before: map<string, Checkpoint>, after: map<string, Checkpoint>, runId: string, r: Live) {
    if r.Over? && r.outcome.Interrupted? then runId in after && after[runId] == r.outcome.checkpoint
    else if runId in before then runId in after && after[runId] == before[runId]
    else runId !in after
  }

  ghost predicate OwnRunIds(ctxs: seq<ExecutionContext>)
    reads ctxs
  {
    forall i, j :: 0 <= i < j < |ctxs| ==> ctxs[i].runId != ctxs[j].runId
  }

  /** One iteration of the loop of one run, on its own context. */
  method TickOn(graph: CompiledGraph, r: Live, ctx: ExecutionContext, store: CheckpointStore) returns (after: Live)
    requires graph.Valid() && ctx.Bookkeeping() == ProgressOf(r)
    modifies ctx, store
    ensures after == Tick(graph.g, r) && ctx.Bookkeeping() == ProgressOf(after) && ctx.runId == old(ctx.runId)
    ensures store.latest == if r.Going? && after.Over? && after.outcome.Interrupted?
                            then old(store.latest)[ctx.runId := after.outcome.checkpoint] else old(store.latest)
  {
    match r {
      case Over(_, _) =>
        after := r;
      case Going(c, bypass) =>
        if c.at == End {
          after := Over(Finished(c.state), ctx.Bookkeeping());
        } else if ctx.turnNumber >= graph.g.maxTurns {
          after := Over(Failed(MaxIterations(c.at.id)), ctx.Bookkeeping());
        } else {
          var stop, to, t := graph.Turn(c.at.id, c.state, ctx, store, bypass);
          after := if stop.Some? then Over(stop.value, ctx.Bookkeeping())
                   else Going(Config(to, t, ctx.Bookkeeping()), false);
        }
    }
  }

  /**
   The event loop over real runs: they share the compiled graph and the store, and each has a context of its own.
   Whatever the schedule, the contexts end up with the bookkeeping of independent runs, and the store with each run's
   own checkpoint; a run that is scheduled often enough has ended as it does alone.
   */
  method RunConcurrently(
    graph: CompiledGraph, starts: seq<Config>, ctxs: seq<ExecutionContext>, store: CheckpointStore, schedule: seq<nat>)
    returns (live: seq<Live>)
    requires graph.Valid() && |ctxs| == |starts|
    requires forall i, j :: 0 <= i < j < |ctxs| ==> ctxs[i] != ctxs[j]
    requires forall i :: 0 <= i < |ctxs| ==> ctxs[i].Bookkeeping() == starts[i].progress
    modifies ctxs, store
    ensures live == Interleaved(graph.g, Starting(starts), schedule)
    ensures forall i :: 0 <= i < |ctxs| ==> ctxs[i].Bookkeeping() == ProgressOf(live[i])
    ensures old(OwnRunIds(ctxs)) ==>
              forall i :: 0 <= i < |ctxs| ==> Kept(old(store.latest), store.latest, ctxs[i].runId, live[i])
    ensures forall i :: 0 <= i < |ctxs| && OftenEnough(graph.g, starts[i], schedule, i) ==>
              live[i] == Alone(graph.g, starts[i]) && ctxs[i].Bookkeeping() == ProgressOf(Alone(graph.g, starts[i]))
  {
    live := Starting(starts);
    for k := 0 to |schedule|
      invariant live == Interleaved(graph.g, Starting(starts), schedule[..k])
      invariant forall i :: 0 <= i < |ctxs| ==>
                  ctxs[i].Bookkeeping() == ProgressOf(live[i]) && ctxs[i].runId == old(ctxs[i].runId)
      invariant old(OwnRunIds(ctxs)) ==>
                  forall i :: 0 <= i < |ctxs| ==> Kept(old(store.latest), store.latest, ctxs[i].runId, live[i])
    {
      assert schedule[..k + 1][..k] == schedule[..k];
      if schedule[k] < |ctxs| {
        var after := TickOn(graph, live[schedule[k]], ctxs[schedule[k]], store);
        live := live[schedule[k] := after];
      }
    }
    assert schedule[..|schedule|] == schedule;
    AllEndAsAlone(graph.g, starts, schedule);
  }
}
