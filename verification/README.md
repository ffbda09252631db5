# Orchestra: a verified model of the core

Orchestra is a Python framework for multi-agent workflows. This project models six of its components and two small
state machines in Dafny and proves what they promise. Each module follows one source file, or the results about it.
Components that update state in place are classes or loops here too, each proved against a function of the old state;
the results are then proved about those functions for all inputs, all runs or all reachable states.

## What is modelled

**Workflows** (`WorkflowState`, `FanIn`, `Edges`, `Engine`, `TypedRuns`, `Interleaving`, `Interrupts`,
`InterruptLimits`, `Builder`, `Validation`, `Fluent`, `FluentRuns`). State is a map of declared fields whose updates
combine by reducers. A graph is an edge table, and a run is a transition function on target, state, turn number, node
order and loop counters; the engine's while loop is proved equal to it. The fluent builder is a small compiler: a
program of `then`, `parallel(...).join(...)` and `loop` stages has a direct meaning, and the run of what the builder
compiles is proved to have it. Interrupts are handled by comparing a chain of pauses and resumes with the run of the
graph whose interrupt flags are erased.

**Budgets** (`BudgetLedger`, `BudgetWalks`, `BudgetInvariants`, `BudgetRuns`, `BudgetMoves`, `BudgetCycles`,
`BudgetResults`, `BudgetExamples`). Accounts, ledger and balances are three tables, changed by transactions that commit
or roll back as a whole. The invariant says that spending equals the ledger sum over the subtree and that ancestor rows
exist exactly once; it holds after every allowed sequence of transactions. Amounts are microdollars.

**Tiered memory** (`SlruPolicy`, `TieredMemory`, `TieredRefinement`). Two ordered dictionaries with capacities in
front of an optional warm and an optional cold store, compared with a plain map over all histories of calls.

**Thought search** (`ThoughtTree`, `DepthFirst`, `BreadthFirst`, `ThoughtSearch`). Beam search and depth-first search
over a tree of thoughts, for an arbitrary oracle that answers or fails at every call.

**Edit distance** (`EditDistance`), **schema translation** (`GeminiSchema`, `GeminiOptionals`, `GeminiTarget`),
**delegation chains** (`Delegation`), **single flight** (`SingleFlight`) and **replay** (`Replay`).

The schema results use the meaning that JSON Schema Draft 2020-12 Core gives to references, applicators and objects
(sections 8.2.3.1, 10.2.1.2 and 10.3). The fragment consists of `type`, `enum`, `properties`, `required`, `items`,
`additionalProperties`, local references without constraining siblings, and `anyOf` of one schema and null without
constraining siblings, with acyclic references.

## What the proofs found

- Stages after `.loop` never run: the loop's conditional edge is the first edge out of its node and leads to END, and
  the engine follows the first edge (`FluentRuns.StagesAfterLoopNeverRun`, `FluentRuns.LastStageNeverRuns`). A program
  that finishes has run all its stages if and only if none but the last is a loop (`FluentRuns.AllStagesRunExactly`).
  The documentation of the fluent interface does not say so.
- Resuming is transparent if and only if every exit taken out of an `interrupt_after` node is faithful: a fan-out out
  of such a node loses its updates, and a pause before END cannot be resumed (`Interrupts.ResumeTransparency`,
  `InterruptLimits.FanOutAfterPauseIsLost`, `InterruptLimits.EndCheckpointCannotResume`). The turn counter starts
  again at 0 on every resume, so max_turns bounds each leg and not the whole run (`InterruptLimits.ChainVisits`,
  `InterruptLimits.LegsOutrunMaxTurns`).
- `compile()` does not check join nodes, and accepts END among the branches of a fan-out, where the engine then looks
  for a node; a run can fail on either (`Validation.AnyJoinPasses`, `Validation.JoinsNowhereFails`,
  `Validation.EndInBranchFails`). `Validation.RunsFindTheirNodes` and, for runs that are resumed,
  `Validation.ResumedRunsFindTheirNodes` say exactly when.
- A tenant id that contains `|` can make two joined ancestor keys equal. The walk then stops at the first account
  whose key is taken: the debit is recorded, and that account and its ancestors are not charged
  (`BudgetResults.BarInTenantCollides`, `BudgetResults.TakenAncestorIsNotCharged`). Everybody is charged if and only
  if no key of the chain is taken (`BudgetResults.DebitChargesUntilTaken`).
- Giving an account another parent moves no balance, so the old and new ancestors no longer add up unless the
  account's subtree was charged nothing (`BudgetCycles.NewParentConservesExactly`,
  `BudgetExamples.MovedSpendingIsMissing`). `create_account` also accepts a parent that closes a cycle; from then on
  nothing at or below the account can be reserved or finalized (`BudgetCycles.CycleFreezesSubtree`,
  `BudgetCycles.OwnParentFreezes`).
- A finalize looks at the first estimate of a run only, so a run with several reserves or finalizes is settled if and
  only if its other rows cancel out (`BudgetResults.FinalizeSettlesExactly`, `BudgetExamples.SecondEstimateStays`).
- Ancestors are charged in the period of the tenant that was debited: a monthly parent of a daily child does not see
  the debit in its own balance (`BudgetResults.AncestorSeesDebitIffSamePeriod`,
  `BudgetExamples.MonthlyParentDoesNotSee`).
- The tiered memory is a map if and only if it has a warm store; without one an eviction loses the value, even with a
  cold store (`TieredRefinement.MapExactlyWithWarmStore`).
- The module documentation of the schema translation says that `const`, `pattern`, `oneOf`, `allOf` and others are not
  accepted by the target, but the code passes them through (`GeminiTarget.ConstPasses`,
  `GeminiTarget.UnknownKeywordPasses`). On the fragment the result has the target's keywords only
  (`GeminiTarget.FragmentStaysInTarget`); `GeminiTarget.StaysInTargetExactly` says for every schema when it has.
- Keywords beside `$ref` are dropped, and keywords beside `anyOf` are copied without being translated
  (`GeminiSchema.ReferenceDropsSiblings`, `GeminiOptionals.DroppedEnumWidens`,
  `GeminiSchema.SiblingsOfOptionalStayRaw`). What the latter does to translating twice and to acceptance is exact in
  `GeminiOptionals.OptionalTwiceExactly` and `GeminiOptionals.SiblingsOnlyWiden`; a value can be admitted that the
  source rejects (`GeminiOptionals.SiblingTypeAdmitsNull`).
- An issuer that cannot be resolved, and an entry without `with` or `can` in an otherwise good token, raise errors the
  proof loop does not catch, so such a proof, at any depth, hides good ones after it
  (`Delegation.CrashingProofBlocks`, `Delegation.LostIssuerBeforeGoodProof`, `Delegation.IncompleteEntryCrashes`).
  `Delegation.GrantedExactlyByPath` says exactly when a good path is found. A capability can be granted and a narrower
  one crash (`Delegation.NarrowerMayCrash`); it is never denied (`Delegation.NarrowerIsGranted`).
- `except Exception` does not catch CancelledError. When the call that runs `fn` is cancelled, or `fn` raises that
  error itself, the calls that joined wait for ever; when a joined call is cancelled, the running one and all others
  fail (`SingleFlight.CancelledLeaderStrandsJoined`, `SingleFlight.CancelledJoinerPoisons`,
  `SingleFlight.JoinedCallHangs`, `SingleFlight.NobodyGetsTheValue`). A call that the error does not reach itself is
  served if and only if, while `fn` runs, it reaches no other call of the execution
  (`SingleFlight.EveryCallerGetsTheExecution`).
- A replayed request that diverged from the recording is first answered by recording 0, whether or not it was used
  (`Replay.DivergedRequestRepeats`, `Replay.RepeatedAtOnce`); `Replay.UsedTwiceExactly` says exactly when a recording
  is used twice.

## Model

| member | source | states |
|---|---|---|
| WorkflowState.ApplyStateUpdate | src/orchestra/core/state.py:110-155 | the loop over the items of an update equals the fold that combines each known field by its reducer or last write, stops at the first unknown field or failing reducer, and then validates types |
| WorkflowState.MergeParallelUpdates | src/orchestra/core/state.py:158-171 | the loop over the branch updates equals their left fold, stopping at the first failure |
| FanIn.FoldPermutes | src/orchestra/core/state.py:158-171 | a fold whose steps commute depends only on the multiset of its elements |
| FanIn.OrderFreeExactly | src/orchestra/core/state.py:28-70 | the order of two branch values never matters for sum, max, min, set union and keep-first, and does matter for each of the other four reducers |
| FanIn.MergeByKey | src/orchestra/core/state.py:110-171 | each field of the merged state is the fold of only the values the updates give to that field |
| FanIn.MergeSucceedsIff | src/orchestra/core/state.py:110-171 | a parallel merge succeeds exactly when every single update would be accepted on the state before the fan-out, and then keeps the types |
| FanIn.FanInOrderInsensitive | src/orchestra/core/compiled.py:971-987 | permuting the updates keeps success and failure, leaves order-free fields equal and list fields equal as multisets |
| FanIn.LastWriterWins | src/orchestra/core/state.py:138-149 | a field without reducer takes the value of the last update naming it; a field no update names is unchanged |
| Engine.ExecutionContext.constructor | src/orchestra/core/context.py:18-96 | a fresh context starts at turn 0 with the counters and order it is given |
| Engine.CompiledGraph.constructor | src/orchestra/core/compiled.py:49-76 | the edge table lists, for every node, its outgoing edges in the order they were added |
| Engine.CompiledGraph.ExecuteParallel | src/orchestra/core/compiled.py:954-987 | all branches read the same state; any branch error fails the fan-out with all messages, else the updates are merged in order; an unknown branch is an error |
| Engine.CompiledGraph.ResolveNext | src/orchestra/core/compiled.py:862-952 | the first outgoing edge decides: its target, its routed target with the counters it leaves, or the fan-out and its join node; no edge means END |
| Engine.CompiledGraph.ExecuteAndApply | src/orchestra/core/compiled.py:489-528 | the body runs on the state, the node joins the order once it returned, and a non-empty update is applied |
| Engine.CompiledGraph.Turn | src/orchestra/core/compiled.py:441-575 | one iteration is one step of the transition function, and a checkpoint is stored exactly when it pauses; nothing but its own context and store is changed |
| Engine.CompiledGraph.RunLoop | src/orchestra/core/compiled.py:431-586 | the loop ends as the transition function run to its end does, with the same turn number, order and counters |
| Engine.CompiledGraph.Resume | src/orchestra/core/compiled.py:271-319 | resuming continues from the last checkpoint on its state with the edits, once that validates, with its counters and order, turn 0, and the interrupt bypassed only after a pause before the node; without checkpoint it fails |
| TypedRuns.RunKeepsTypes | src/orchestra/core/compiled.py:431-586 | from a well-typed state every run ends, or pauses, in a well-typed state |
| TypedRuns.EditsReplaceFields | src/orchestra/core/compiled.py:275-278 | resuming without edits is resuming on the state of the checkpoint; edits are accepted exactly when every declared field they name keeps its type, and change just those fields |
| Interleaving.InterleavedRunsEndAsAlone | src/orchestra/core/compiled.py:879-881 | any number of runs of one graph, interleaved in any way, end each as it does alone, with its own order and loop counters |
| Interleaving.RunConcurrently | src/orchestra/core/compiled.py:120-123 | runs over one compiled graph and one store, each with a context object of its own: whatever the schedule, every context ends with the bookkeeping of its run alone, and the store keeps for every run its own checkpoint |
| Interrupts.NextIgnoresFlags | src/orchestra/core/compiled.py:862-952 | where a run goes next does not depend on interrupt flags |
| Interrupts.StepAgainstErased | src/orchestra/core/compiled.py:451-575 | a step with flags either equals the step without them, or pauses before the node, or runs it and pauses after |
| Interrupts.ResumingCompletes | src/orchestra/core/compiled.py:271-319 | if every exit is faithful, twice the number of node calls plus one resumes complete exactly as the run without flags |
| Interrupts.UnfaithfulNeverCompletes | src/orchestra/core/compiled.py:530-575 | one unfaithful exit, and no number of resumes reproduces the run without flags |
| Interrupts.PlainExitIsFaithful | src/orchestra/core/compiled.py:530-551 | an exit by a plain or conditional edge to a node is faithful |
| Interrupts.ResumeTransparency | src/orchestra/core/compiled.py:271-319 | when the run without flags finishes, pausing and resuming makes the same node calls and ends in the same state, order and counters if and only if every exit taken out of an interrupt_after node is faithful |
| Interrupts.PlainExitsSuffice | src/orchestra/core/compiled.py:530-575 | leaving every interrupt_after node by a plain or conditional edge to a real node makes every exit faithful |
| InterruptLimits.EndCheckpointCannotResume | src/orchestra/core/compiled.py:549 | a pause after the last node stores the node name END, and resuming fails because there is no such node |
| InterruptLimits.FanOutAfterPauseIsLost | src/orchestra/core/compiled.py:535 | a concrete graph whose fan-out out of an interrupt_after node loses the branch update on resume |
| InterruptLimits.ChainVisits | src/orchestra/core/compiled.py:281-286 | a run with n resumes makes at most (n + 1) * max_turns node calls: the turn limit bounds each leg |
| InterruptLimits.LegsOutrunMaxTurns | src/orchestra/core/compiled.py:281-286 | a concrete graph that needs more turns than max_turns in one run and finishes with one resume |
| Builder.WorkflowGraph.AddNode | src/orchestra/core/graph.py:130-161 | reserved and duplicate names are refused with nothing changed; the first node becomes the entry point |
| Builder.WorkflowGraph.Then | src/orchestra/core/graph.py:217-242 | adds the node, the edge from the last node and the new last node, or nothing on error |
| Builder.WorkflowGraph.Parallel | src/orchestra/core/graph.py:284-320 | the loop adds the branches under fresh or suffixed names, then one open fan-out edge; an unjoined fan-out is an error |
| Builder.WorkflowGraph.Join | src/orchestra/core/graph.py:322-352 | adds the join node and closes the open fan-out over the pending branches; a join without fan-out is an error |
| Builder.WorkflowGraph.SetJoinNode | src/orchestra/core/graph.py:337-350 | only the first open fan-out over these branches gets the join node |
| Builder.WorkflowGraph.Loop | src/orchestra/core/graph.py:430-474 | adds the node if it is new, the edge into it and the counting conditional edge |
| Builder.WorkflowGraph.Compile | src/orchestra/core/graph.py:478-503 | validates, then closes the last node with an edge to END if it has no outgoing edge |
| Builder.FirstOpenCloses | src/orchestra/core/graph.py:337-350 | closing a fan-out changes the edge at one index and no other |
| Validation.EveryEdgeChecked | src/orchestra/core/graph.py:505-562 | validation reports an error unless every edge passes its own check |
| Validation.RunsFindTheirNodes | src/orchestra/core/graph.py:505-562 | the runs of a graph that compile() accepted, from all its nodes and on all states, find their nodes if and only if no node that runs on some state has END among its branches, or does not pause and leaves by a fan-out to a missing join node whose branches merge, or by a route past the path map to neither a node nor END |
| Validation.AnyJoinPasses | src/orchestra/core/graph.py:552-562 | compile() accepts any join node, existing or not, and END among the branches |
| Validation.NextIsKnown | src/orchestra/core/compiled.py:862-952 | of the exits of an accepted graph just those to missing joins and past the path map lead to a missing node, and a branch is missing exactly when END stands among the branches |
| Validation.MissingNodeFails | src/orchestra/core/compiled.py:451-460 | a step to a missing node fails one turn later with node-not-found |
| Validation.JoinsNowhereFails | src/orchestra/core/graph.py:551-562 | a concrete graph that compile() accepts and whose every run fails on its missing join node |
| Validation.EndInBranchFails | src/orchestra/core/graph.py:556-562 | a concrete graph with END among its branches, which compile() accepts and whose every run fails |
| Validation.ResumedRunsFindTheirNodes | src/orchestra/core/compiled.py:254-319 | the same condition for runs that are paused and resumed any number of times: then nodes that pause must not go astray or to END either |
| Fluent.BuildSucceeds | src/orchestra/core/graph.py:217-352 | a program with distinct names builds without error into nodes and edges that match its stages |
| Fluent.CompileSucceeds | src/orchestra/core/graph.py:478-503 | such a program compiles, and the first edge out of every stage is the one to the next stage, the loop edge, or END |
| FluentRuns.CompileThenRun | src/orchestra/core/compiled.py:431-586 | running the compiled program has the outcome and node order of its direct meaning, one turn per then, join and loop pass, and leaves no loop counter |
| FluentRuns.MeaningComposes | src/orchestra/core/graph.py:217-352 | the meaning of a loop-free program is the left-to-right composition of its stages, or running out of turns |
| FluentRuns.StagesTakeOneTurnEach | src/orchestra/core/compiled.py:431-586 | a compiled loop-free program whose stages succeed ends in their composition after one turn per stage, and exceeds max_turns exactly when it has more stages |
| FluentRuns.LoopNext | src/orchestra/core/graph.py:454-473 | the routing function of a loop goes round exactly while the condition holds and fewer than max_iterations passes were made, and drops its counter on exit |
| FluentRuns.LoopPasses | src/orchestra/core/graph.py:454-473 | a loop makes exactly i passes, i being the first pass after which the condition is false, if that is within max_iterations |
| FluentRuns.LoopExhausts | src/orchestra/core/graph.py:454-473 | if the condition never turns false, exactly max_iterations passes are made |
| FluentRuns.LoopRuns | src/orchestra/core/compiled.py:879-888 | the run of a compiled program that enters a loop stage makes just those passes, ends in the state after them, and leaves no counter |
| FluentRuns.StagesAfterLoopNeverRun | src/orchestra/core/compiled.py:873-888 | the compiled program with a loop at stage i runs exactly as if the stages after i were left out |
| FluentRuns.LastStageNeverRuns | src/orchestra/core/compiled.py:873-888 | a concrete program with a loop in the middle that finishes without its last stage |
| FluentRuns.AllStagesRunExactly | src/orchestra/core/compiled.py:873-888 | a compiled program that finishes has run all its stages if and only if none but the last is a loop |
| FluentRuns.PausedProgramMeaning | src/orchestra/core/compiled.py:271-319 | a program with interrupts between plain stages, paused and resumed until done, still has its direct meaning |
| BudgetLedger.PersistentBudgetStore.CreateAccount | src/orchestra/cost/persistent_budget.py:160-189 | upserts the account and a zero balance, or changes nothing when the parent is missing |
| BudgetLedger.PersistentBudgetStore.RecursiveCheckAndUpdate | src/orchestra/cost/persistent_budget.py:251-327 | the recursive walk equals its specification and terminates on any parent map by the shrinking set of unvisited accounts |
| BudgetLedger.PersistentBudgetStore.CheckAndDebit | src/orchestra/cost/persistent_budget.py:191-238 | the debit commits its whole effect, or leaves all three tables as they were and reports the error |
| BudgetLedger.PersistentBudgetStore.RecursiveUpdateBalance | src/orchestra/cost/persistent_budget.py:369-398 | the update walk shifts existing balances along the parent links, or reports a cycle |
| BudgetLedger.PersistentBudgetStore.AdjustActual | src/orchestra/cost/persistent_budget.py:329-367 | the correction commits its whole effect, or leaves all three tables as they were |
| BudgetWalks.AncestorKeyInjective | src/orchestra/cost/persistent_budget.py:240-249 | the joined ancestor key determines child key, tenant and period when tenant and period are free of the bar |
| BudgetWalks.WalkChargesChain | src/orchestra/cost/persistent_budget.py:288-327 | with an unused key a walk succeeds exactly when all stay within limits and the links end, and adds one row and the amount for exactly the members of the ancestor chain |
| BudgetWalks.WalkChargesUntilTaken | src/orchestra/cost/persistent_budget.py:296-327 | on any tables, bars or not, a walk within limits charges the chain up to the first member whose joined key is taken, and stops there |
| BudgetWalks.WalkChargesChainIffUntaken | src/orchestra/cost/persistent_budget.py:296-327 | on any tables such a walk charges the whole chain if and only if no member has its joined key taken |
| BudgetWalks.ShiftMovesChain | src/orchestra/cost/persistent_budget.py:369-398 | the update walk moves exactly the balances of the chain |
| BudgetWalks.ChainsSurvive | src/orchestra/cost/persistent_budget.py:160-189 | opening a new account changes no existing ancestor chain |
| BudgetInvariants.FreshKeyUncharged | src/orchestra/cost/persistent_budget.py:296-313 | in a reachable state the already-inserted guard of the walk cannot fire for a new key |
| BudgetInvariants.DebitGoesThrough | src/orchestra/cost/persistent_budget.py:191-238 | a debit with a new key goes through exactly when the parent links end and the tenant and all ancestors stay within their limits |
| BudgetInvariants.DebitConserves | src/orchestra/cost/persistent_budget.py:220-234 | a debit keeps every balance equal to the ledger sum over the subtree |
| BudgetInvariants.DebitKeepsExactlyOnce | src/orchestra/cost/persistent_budget.py:296-313 | after a debit the ancestor rows of every estimate still cover exactly its chain, once |
| BudgetRuns.AdjustKeepsInv | src/orchestra/cost/persistent_budget.py:338-398 | a correction keeps conservation and exactly-once rows |
| BudgetRuns.OpenKeepsInv | src/orchestra/cost/persistent_budget.py:160-189 | opening or updating an account with unchanged parent links keeps the invariant |
| BudgetRuns.ReachableStates | src/orchestra/cost/persistent_budget.py:160-398 | after any allowed sequence of transactions, every tenant has spent in every period the sum over its subtree of estimates minus credits, and ancestor rows exist exactly once for exactly the ancestor chain of each estimate |
| BudgetCycles.NewParentConservesExactly | src/orchestra/cost/persistent_budget.py:168-189 | giving an account any parent that create_account accepts keeps spending the sum over every subtree if and only if: where its links still end, it keeps its ancestors or its own subtree was charged nothing in every period; where they close a cycle, the rows at and below it weigh nothing for anybody |
| BudgetExamples.MovedSpendingIsMissing | src/orchestra/cost/persistent_budget.py:168-189 | a concrete account that is moved after it spent: its new parent has not spent that |
| BudgetCycles.EndsUnlessBelow | src/orchestra/cost/persistent_budget.py:168-189 | giving an account a parent that closes a cycle makes the chains endless of exactly that account and those below it |
| BudgetCycles.CycleFreezesSubtree | src/orchestra/cost/persistent_budget.py:191-398 | from then on, after any reserves and finalizes, a new reserve and a finalize with an estimate fail for exactly these accounts, and nothing about them changes a table |
| BudgetCycles.OwnParentFreezes | src/orchestra/cost/persistent_budget.py:168-189 | a concrete account made its own parent, which is accepted and then cannot reserve |
| BudgetResults.ReserveThenFinalize | src/orchestra/cost/persistent_budget.py:329-367 | one reserve and one finalize of a run, with anything about other runs in between, move the tenant and every ancestor by exactly the actual cost, in the period of the reserve |
| BudgetResults.FinalizeSettlesExactly | src/orchestra/cost/persistent_budget.py:338-363 | a finalize corrects the first estimate of its run; whatever rows the run has, it settles the run at the actual cost if and only if the other rows came to nothing before |
| BudgetExamples.SecondEstimateStays | src/orchestra/cost/persistent_budget.py:338-363 | a concrete run with two reserves and one finalize that is charged more than its actual cost |
| BudgetResults.ReplayedReserveIsNoOp | src/orchestra/cost/persistent_budget.py:200-205 | a reserve that went through changes nothing when repeated, whatever ran in between |
| BudgetResults.DebitsStayWithinLimits | src/orchestra/cost/persistent_budget.py:271-295 | over any debits with accounts fixed, no tenant spends more than its limit in any period |
| BudgetResults.DebitChargesUntilTaken | src/orchestra/cost/persistent_budget.py:220-234 | on any tables a debit with a new key and within limits charges the tenant and all ancestors if and only if none of their joined keys is taken, and else those before the first that is |
| BudgetResults.TakenKeyChargesNobody | src/orchestra/cost/persistent_budget.py:296-313 | if the joined key is taken, the estimate is recorded and nobody is charged |
| BudgetResults.BarInTenantCollides | src/orchestra/cost/persistent_budget.py:240-249 | two concrete tenants, one with a bar in its id, for which the joined keys collide and a debit charges nobody |
| BudgetResults.TakenAncestorIsNotCharged | src/orchestra/cost/persistent_budget.py:310-313 | the same one level up: a concrete debit that charges the tenant and not its parent |
| BudgetResults.AncestorSeesDebitIffSamePeriod | src/orchestra/cost/persistent_budget.py:271-327 | an ancestor sees a debit in its own current period if and only if its period string equals that of the debited tenant |
| BudgetExamples.MonthlyParentDoesNotSee | src/orchestra/cost/persistent_budget.py:271-327 | a concrete monthly account above a daily one, whose remaining budget does not see a debit |
| SlruPolicy.SLRUPolicy.Access | src/orchestra/memory/tiers.py:95-112 | moves a hot key to the end, promotes a warm key and reports what falls due |
| SlruPolicy.SLRUPolicy.Insert | src/orchestra/memory/tiers.py:114-125 | updates in place, or appends to warm and reports what falls due |
| SlruPolicy.SLRUPolicy.EvictionsDue | src/orchestra/memory/tiers.py:127-143 | the two loops pop the oldest entries until both segments fit |
| SlruPolicy.SLRUPolicy.Remove | src/orchestra/memory/tiers.py:145-147 | forgets the key in both segments |
| SlruPolicy.OldestHotDemoted | src/orchestra/memory/tiers.py:127-143 | exactly the oldest surplus hot entries move, in order, to the end of warm |
| SlruPolicy.OldestWarmEvicted | src/orchestra/memory/tiers.py:127-143 | exactly the oldest surplus warm entries leave, in order |
| SlruPolicy.DueKeeps | src/orchestra/memory/tiers.py:127-143 | capacities are restored, exactly the keys reported as COLD leave, and nobody else loses an entry |
| SlruPolicy.IgnoredEvictionsAreNotCold | src/orchestra/memory/tiers.py:262-281 | the evictions ignored after insert-then-access never contain a COLD entry |
| SlruPolicy.AnyInterleaving | src/orchestra/memory/tiers.py:95-147 | under any interleaving of the locked sections hot and warm stay disjoint and within capacity, and a key leaves only if removed or reported as COLD |
| TieredMemory.InMemoryMemoryBackend.Set | src/orchestra/memory/backends.py:49-51 | sets one key, with the time it expires |
| TieredMemory.SetLivesUntil | src/orchestra/memory/backends.py:38-51 | a value is found until its time to live is over, and for ever without one; no other key is affected |
| TieredMemory.InMemoryMemoryBackend.Fetch | src/orchestra/memory/backends.py:38-47 | finds the value of a key that has not expired, and deletes one that has |
| TieredMemory.TieredMemoryManager.Store | src/orchestra/memory/tiers.py:207-218 | insert, write-through and evictions, as one function of policy and stores |
| TieredMemory.TieredMemoryManager.Retrieve | src/orchestra/memory/tiers.py:220-284 | returns the hot, warm, warm-store or cold-store value, in that order, and promotes it |
| TieredMemory.TieredMemoryManager.FetchIntoPolicy | src/orchestra/memory/tiers.py:262-267 | a value found in a store is inserted and accessed under one lock, and only the evictions of the insert are handled |
| TieredMemory.TieredMemoryManager.HandleEvictions | src/orchestra/memory/tiers.py:286-290 | demotes each key reported as COLD, in order |
| TieredMemory.TieredMemoryManager.Promote | src/orchestra/memory/tiers.py:292-295 | promoting to HOT is a retrieve, to another tier nothing |
| TieredMemory.TieredMemoryManager.Demote | src/orchestra/memory/tiers.py:297-311 | moves a found value to the cold store and forgets it elsewhere |
| TieredRefinement.CallRefines | src/orchestra/memory/tiers.py:207-311 | with a warm store every call acts on what can be found as on a plain map |
| TieredRefinement.HistoryRefinesMap | src/orchestra/memory/tiers.py:207-311 | with a warm store, after any history a retrieve finds the last value stored, for all capacities, with or without a cold store |
| TieredRefinement.OverfillingLoses | src/orchestra/memory/tiers.py:138-141 | without a warm store, storing one key more than warm holds loses the first |
| TieredRefinement.MapExactlyWithWarmStore | src/orchestra/memory/tiers.py:207-311 | the manager is a map over all histories if and only if it has a warm store |
| ThoughtTree.ChainLength | src/orchestra/reasoning/tot.py:74-81 | the chain runs from the root to the node and has one thought per level |
| ThoughtTree.ParsedThoughts | src/orchestra/reasoning/tot.py:503-515 | at most k distinct, non-empty thoughts are kept, in order of first occurrence, and fewer than k only if no other was given |
| ThoughtTree.SortSorts | src/orchestra/reasoning/tot.py:379-381 | sorting by value permutes and is ascending |
| ThoughtTree.SortIsStable | src/orchestra/reasoning/tot.py:379-381 | sorting keeps thoughts of equal value in their order, as the library sort does |
| ThoughtSearch.TreeOfThoughtsAgent.ThoughtChain | src/orchestra/reasoning/tot.py:74-81 | the parent loop returns the root-to-node chain |
| ThoughtSearch.TreeOfThoughtsAgent.Parse | src/orchestra/reasoning/tot.py:507-515 | the loop keeps the first k distinct non-empty thoughts |
| ThoughtSearch.TreeOfThoughtsAgent.GenerateThoughts | src/orchestra/reasoning/tot.py:397-423 | one call of the oracle, its lines parsed, or its failure |
| ThoughtSearch.TreeOfThoughtsAgent.AddChildren | src/orchestra/reasoning/tot.py:345-353 | one unevaluated child per thought, linked to its parent |
| ThoughtSearch.TreeOfThoughtsAgent.EvaluateThoughts | src/orchestra/reasoning/tot.py:355-377 | the children are scored in order; a failed evaluation gives the default value |
| ThoughtSearch.TreeOfThoughtsAgent.Scan | src/orchestra/reasoning/tot.py:364-374 | the terminals among the children update the best so far, and the viable children are collected |
| ThoughtSearch.TreeOfThoughtsAgent.Pop | src/orchestra/reasoning/tot.py:334-389 | one iteration is one step: a popped leaf becomes the best if it beats the best so far, any other node is expanded, and the search stops at a terminal or pushes the viable children |
| ThoughtSearch.TreeOfThoughtsAgent.Expand | src/orchestra/reasoning/tot.py:344-374 | an expansion generates and evaluates the children and finds the best terminal and the viable ones, or leaves the tree as it was when the generation raises |
| ThoughtSearch.TreeOfThoughtsAgent.GenerateLevel | src/orchestra/reasoning/tot.py:249-264 | every node of the frontier gets its children; a failed generation adds none |
| ThoughtSearch.TreeOfThoughtsAgent.AdvanceLevel | src/orchestra/reasoning/tot.py:266-304 | a level is evaluated and leaves the best terminal or the next frontier |
| ThoughtSearch.TreeOfThoughtsAgent.Dfs | src/orchestra/reasoning/tot.py:323-391 | the depth-first loop equals its step function run to the end |
| ThoughtSearch.TreeOfThoughtsAgent.Bfs | src/orchestra/reasoning/tot.py:239-317 | the level loop equals its level function run to the end, and returns its best terminal or the best leaf |
| DepthFirst.StepDoesWork | src/orchestra/reasoning/tot.py:334-389 | every iteration leaves less to do, so the search ends for every oracle |
| DepthFirst.StackNeverExceeds | src/orchestra/reasoning/tot.py:334-389 | at every loop head the element at index i has depth d with i <= d * (breadth - 1), so the stack holds at most 1 + max_depth * (breadth - 1) nodes |
| DepthFirst.CallsNeverExceed | src/orchestra/reasoning/tot.py:334-389 | at most the sum of breadth^i for i below max_depth generations are made, and breadth times that many evaluations |
| DepthFirst.BestChildPoppedNext | src/orchestra/reasoning/tot.py:379-381 | after an expansion that pushed something, the next node popped is the new child of greatest value |
| DepthFirst.SearchResult | src/orchestra/reasoning/tot.py:323-391 | the nodes form a tree and the result is the first of greatest value among all leaves popped and terminals seen |
| BreadthFirst.BeamSplitsSurvivors | src/orchestra/reasoning/tot.py:290-300 | the beam and the dropped survivors are together a permutation of the survivors |
| BreadthFirst.BeamKeepsBest | src/orchestra/reasoning/tot.py:290-300 | at most beam nodes are kept, and no dropped survivor is valued higher than a kept one |
| BreadthFirst.LevelStep | src/orchestra/reasoning/tot.py:250-300 | each level either ends the search with a terminal or without survivors, or starts the next level one deeper |
| BreadthFirst.BeamSearchResult | src/orchestra/reasoning/tot.py:239-317 | at most 1 + beam * (max_depth - 1) generations and breadth times that many evaluations; a tree whose chains have depth + 1 thoughts; the terminal returned is of greatest value and lies on the last level reached |
| BreadthFirst.BestLeafReturned | src/orchestra/reasoning/tot.py:302-317 | without a terminal the leaf of greatest value in the last beam is returned and marked terminal |
| EditDistance.ComputeDistance | src/orchestra/discovery/validation.py:18-32 | the two-row program computes the recursive edit distance |
| EditDistance.NextRow | src/orchestra/discovery/validation.py:26-31 | the inner loop computes the next row of the table |
| EditDistance.DistanceReached | src/orchestra/discovery/validation.py:18-32 | a script of that many inserts, deletes and substitutions exists |
| EditDistance.DistanceIsFewestEdits | src/orchestra/discovery/validation.py:18-32 | the distance is the length of the shortest edit script: a script of n edits leads from a to b only if n is at least the distance, and one of that length exists |
| EditDistance.DistanceSymmetric | src/orchestra/discovery/validation.py:18-32 | the distance is symmetric |
| EditDistance.ZeroOnlyOnEqual | src/orchestra/discovery/validation.py:18-32 | the distance is zero exactly on equal strings |
| EditDistance.TriangleInequality | src/orchestra/discovery/validation.py:18-32 | the distance obeys the triangle inequality |
| EditDistance.NearestIsFirst | src/orchestra/discovery/validation.py:35-45 | min picks the first of the nearest candidates |
| EditDistance.SuggestsNearest | src/orchestra/discovery/validation.py:35-45 | a nearest candidate is suggested, and none exactly when all are farther than the limit |
| GeminiSchema.TranslationPreservesMeaning | src/orchestra/providers/_gemini_schema.py:35-95 | on the fragment the translation succeeds, and a value is accepted by the result exactly when it is accepted by the source schema |
| GeminiSchema.OptionalPreserves | src/orchestra/providers/_gemini_schema.py:49-60 | anyOf of X and null becomes X with null accepted besides |
| GeminiSchema.FullIsNarrower | src/orchestra/providers/_gemini_schema.py:15-22 | leaving additionalProperties, false or a schema, out of the meaning only widens what is accepted, for every schema |
| GeminiSchema.TranslationOnlyWidens | src/orchestra/providers/_gemini_schema.py:35-95 | what the full meaning of a source schema of the fragment accepts, its translation accepts |
| GeminiSchema.TranslationExactWhenOpen | src/orchestra/providers/_gemini_schema.py:35-95 | and exactly that, where additionalProperties does not occur |
| GeminiSchema.TranslationIsIdempotent | src/orchestra/providers/_gemini_schema.py:35-99 | on the fragment translating twice, whatever the definitions the second time, is translating once |
| GeminiSchema.ConvertIgnoresFuel | src/orchestra/providers/_gemini_schema.py:35-95 | once a translation succeeds, more room to recurse changes nothing, for every schema |
| GeminiSchema.MeaningIgnoresFuel | src/orchestra/providers/_gemini_schema.py:39-46 | once references are acyclic within some bound, what a schema accepts does not depend on the bound |
| GeminiSchema.ReferenceDropsSiblings | src/orchestra/providers/_gemini_schema.py:39-46 | keywords beside a reference are lost: the result accepts what the reference alone accepts, which is never less than the source |
| GeminiOptionals.DroppedEnumWidens | src/orchestra/providers/_gemini_schema.py:39-46 | a concrete reference beside an enum that accepts nothing, and whose translation accepts every object |
| GeminiSchema.SiblingsOfOptionalStayRaw | src/orchestra/providers/_gemini_schema.py:55-59 | a concrete optional with a sibling keyword on which a second translation changes the result |
| GeminiOptionals.OptionalTwiceExactly | src/orchestra/providers/_gemini_schema.py:48-60 | for every optional, whatever stands beside anyOf, translating twice is translating once if and only if that holds of X, prefixItems is not a sibling, and sibling properties and items that X does not override are left as they are by a translation |
| GeminiOptionals.ObjectUnchangedExactly | src/orchestra/providers/_gemini_schema.py:62-95 | a schema without references, anyOf or banned keys is left as it is exactly when it has no prefixItems and its properties and items are |
| GeminiOptionals.SiblingsOnlyWiden | src/orchestra/providers/_gemini_schema.py:48-60 | with siblings the translation accepts null, and what X and the siblings it does not override accept; it never rejects what the source accepts |
| GeminiOptionals.SiblingTypeAdmitsNull | src/orchestra/providers/_gemini_schema.py:48-60 | a concrete optional beside a type that rejects null, and whose translation accepts it |
| GeminiOptionals.SourceSplits | src/orchestra/providers/_gemini_schema.py:48-60 | in the source the siblings of anyOf are an extra condition, on null too |
| GeminiTarget.FragmentStaysInTarget | src/orchestra/providers/_gemini_schema.py:1-8 | on the fragment the result uses only the keywords the target accepts, at every depth |
| GeminiTarget.StaysInTargetExactly | src/orchestra/providers/_gemini_schema.py:35-99 | for every schema that is translated at all, the result uses only these keywords at every depth if and only if the source meets a condition on its own keywords: at each level they are of the target, banned or prefixItems, in all parts that are translated in turn, and parts copied from beside anyOf are of the target as they stand |
| GeminiTarget.CarriesExactly | src/orchestra/providers/_gemini_schema.py:35-99 | whether a translation has properties or items, read off the source: through references, optionals and the first tuple element |
| GeminiTarget.BlankExactly | src/orchestra/providers/_gemini_schema.py:89-93 | a translated first tuple element is dropped exactly when it had no key but banned ones, or is falsy itself |
| GeminiTarget.UnknownKeywordPasses | src/orchestra/providers/_gemini_schema.py:62-72 | every other keyword passes through the translation unchanged, and is then outside the target |
| GeminiTarget.ConstPasses | src/orchestra/providers/_gemini_schema.py:6-8 | in particular const, pattern, oneOf and allOf, for any value |
| Delegation.CheckCapability | src/orchestra/identity/ucan.py:126-147 | the loop answers whether some entry covers the required capability |
| Delegation.CoversTransitive | src/orchestra/identity/ucan.py:130-142 | coverage, wildcards included, is reflexive and transitive |
| Delegation.WildcardCoversExactlyBelow | src/orchestra/identity/ucan.py:113-139 | a namespace wildcard covers itself and what lies below the namespace, and any other resource covers only itself |
| Delegation.VerifyDelegationChain | src/orchestra/identity/delegation.py:41-139 | the recursive verifier with its proof loop equals its specification, including which errors the loop catches, and the missing claims at which the token builder raises |
| Delegation.GrantedExactlyByPath | src/orchestra/identity/delegation.py:84-139 | whatever the issuers and claims, verification accepts exactly when there is a proof path (signatures, times and audiences good, complete claims, the capability claimed at every token, down to one without proofs) on which no proof tried before the chosen one, at any token, crashes |
| Delegation.OutcomeReads | src/orchestra/identity/delegation.py:58-139 | a token is granted, and crashes, exactly when its tokens and issuers say so; which comes first among the proofs decides |
| Delegation.HarmlessGrantedByPath | src/orchestra/identity/delegation.py:84-139 | with all issuers resolvable and all entries complete, verification accepts exactly when a proof path exists |
| Delegation.GrantedHasPath | src/orchestra/identity/delegation.py:84-122 | acceptance always has such a path, whatever the issuers |
| Delegation.EveryTokenOfPathClaims | src/orchestra/identity/delegation.py:86-122 | every token of a path is signed and itself claims the capability, and every proof is addressed to the issuer of the token before it |
| Delegation.DelegatedNeverExceedsProofs | src/orchestra/identity/delegation.py:102-120 | a delegated token is never granted more than some proof addressed to its issuer is |
| Delegation.NarrowerIsGranted | src/orchestra/identity/delegation.py:84-122 | who is granted a capability is never denied what it covers: it is granted, exactly unless the verification crashes on a proof that did not claim the wider one; with resolvable issuers and complete entries it is granted |
| Delegation.NarrowerMayCrash | src/orchestra/identity/delegation.py:104-115 | a concrete token that is granted a namespace, and crashes for a resource in it |
| Delegation.CrashingProofBlocks | src/orchestra/identity/delegation.py:104-115 | a proof that crashes, at any place and any depth, ends the verification of a token in order, exactly unless one is granted before any crashes |
| Delegation.LostIssuerBeforeGoodProof | src/orchestra/identity/delegation.py:104-115 | a concrete token with an unresolvable and a good proof: it is granted in one order and crashes in the other |
| Delegation.IncompleteEntryCrashes | src/orchestra/identity/delegation.py:125-128 | a concrete token that claims the capability and crashes on another entry without an ability |
| SingleFlight.SingleFlight.Enter | src/orchestra/memory/singleflight.py:28-34 | joins the future of the key, or registers a new one |
| SingleFlight.SingleFlight.Settle | src/orchestra/memory/singleflight.py:36-47 | resolves the future, or fails if it was cancelled, and unregisters it |
| SingleFlight.SingleFlight.Release | src/orchestra/memory/singleflight.py:43-47 | removes the key only if it still names this future |
| SingleFlight.RunKeepsInv | src/orchestra/memory/singleflight.py:22-47 | in every interleaving, cancellations and an fn raising CancelledError included, the dictionary names exactly the running executions, and every ended call is accounted for |
| SingleFlight.OneExecutionPerKey | src/orchestra/memory/singleflight.py:28-34 | at most one execution runs for a key |
| SingleFlight.IdentityTestSucceeds | src/orchestra/memory/singleflight.py:43-47 | the identity test before the removal always succeeds |
| SingleFlight.FreshStart | src/orchestra/memory/singleflight.py:28-34 | a new call runs fn itself exactly when no execution is running for its key |
| SingleFlight.EveryCallerGetsTheExecution | src/orchestra/memory/singleflight.py:22-47 | in every interleaving, cancellations and an fn raising CancelledError included: a call that CancelledError did not reach itself gets the result or error of its execution, or can wake up to it, if and only if while fn ran it reached no other call of that execution |
| SingleFlight.CancelledLeaderStrandsJoined | src/orchestra/memory/singleflight.py:36-47 | if CancelledError leaves fn, no later run ever ends the calls that joined it |
| SingleFlight.CancelledLeaderEffect | src/orchestra/memory/singleflight.py:36-47 | cancelling a leader, or an fn that raises CancelledError, stops its execution, frees its key and touches no other call; the joined calls are stranded, or poisoned if one of them was cancelled before |
| SingleFlight.CancelledJoinerEffect | src/orchestra/memory/singleflight.py:28-29 | cancelling a joined call before fn ended poisons the future, and afterwards touches no call but its own |
| SingleFlight.CancelledJoinerPoisons | src/orchestra/memory/singleflight.py:28-42 | after that no call still open, or joining later, ever ends with a result or error of fn, and those that had ended are as they were |
| SingleFlight.CancelledJoinerFailsLeader | src/orchestra/memory/singleflight.py:36-42 | the leader then fails although fn succeeded |
| SingleFlight.JoinedCallHangs | src/orchestra/memory/singleflight.py:28-47 | a concrete run in which the leader is cancelled, or its fn raises CancelledError, and the joined call hangs |
| SingleFlight.NobodyGetsTheValue | src/orchestra/memory/singleflight.py:28-42 | a concrete run in which a joined call is cancelled, fn succeeds, and all calls fail |
| Replay.ReplayProvider.constructor | src/orchestra/providers/replay.py:68-76 | the loop indexes the recordings of each hash in order, and none without a hash |
| Replay.ReplayProvider.Complete | src/orchestra/providers/replay.py:86-98 | serves the first recording left for the hash, else the next of the sequential pointer, else fails |
| Replay.StateAfter | src/orchestra/providers/replay.py:68-98 | after any history each hash has lost exactly the recordings asked for, and the pointer has moved once per fallback |
| Replay.AnswerDecided | src/orchestra/providers/replay.py:86-98 | for every history of requests: the i-th request of a hash gets its i-th recording, and once those are used up the pointer decides |
| Replay.ReplayIgnoresScheduling | src/orchestra/providers/replay.py:45-49 | if no hash is asked more often than recorded, the answers to each hash are its first recordings in order whatever the order of requests, and the pointer never moves |
| Replay.NoRecordingTwice | src/orchestra/providers/replay.py:86-98 | then no recording is used twice |
| Replay.UsedTwiceExactly | src/orchestra/providers/replay.py:86-98 | for every recording and history, some recording is used twice if and only if the pointer has passed one that a request of its own hash also got |
| Replay.RepeatedAtOnce | src/orchestra/providers/replay.py:86-98 | a concrete recording that answers two requests |
| Replay.UnhashedReplayIsSequential | src/orchestra/providers/replay.py:91-98 | without hashes the k-th request gets the k-th call, and fails beyond the last |
| Replay.DivergedRequestRepeats | src/orchestra/providers/replay.py:91-93 | the first request without a recording of its hash is answered by the first recording of all, even one already replayed |

## Left out

- Handoff edges, `Send` fan-out, context distillation, subgraphs, `branch` and `if_then`: the engine model has plain, conditional and parallel edges.
- Engine.CompiledGraph.ResolveNext: does not model lists of `Send` and handoff edges, because they rest on parts that are left out above.
- Untyped dict state: state has a declared schema; extra keys such as `__loop_counters__` in a checkpoint are dropped by validation, as pydantic does by default.
- WorkflowState.ApplyStateUpdate: does not model the coercion and default filling of pydantic, whose code is not part of the repository: a value is accepted exactly when it has the declared kind, and a reducer on other operands than the types it is annotated with raises.
- Node bodies, including agents with their output mapping: a body is a deterministic function of the state it reads, returning an update or raising.
- Conditions of `.loop` are total functions of the state; routing functions in general may raise and may change the run's counters.
- Float route keys, and routing functions that return lists.
- Events, tracing, cost totals, guardrails, `fork`, and time travel; the event store is the latest checkpoint of each run.
- Names of nodes taken from functions or agents: stages and branches carry their names.
- Fluent programs are modelled with distinct names; the builder methods themselves are modelled for all names, with the suffix a duplicate branch gets and the error a duplicate node raises.
- Fluent.BuildSucceeds: states that a program starts with a node of its own, since a program that starts with a fan-out has no node to fan out from.
- BudgetRuns.ReachableStates: does not allow transactions that change the parent of an existing account, or open one with a `|` in its id, because the claim fails for both; exactly when is stated by `BudgetCycles.NewParentConservesExactly` and `BudgetResults.DebitChargesUntilTaken`, and what a parent that closes a cycle does by `BudgetCycles.CycleFreezesSubtree`.
- Interleaving.RunConcurrently: interleaves whole iterations of the engine's loop, and gives every run a context of its own, as `run()` does unless a caller hands one context to two runs.
- SQL, connections and the wall clock: a transaction is one step, the date is a parameter, SHA-256 is injective, and keys that clients choose do not start with the prefix of hashed keys.
- Rounding from dollars to microdollars, `get_state`, and the tenant manager's wrappers.
- Concurrent `store` against `demote`: the map claim is about calls one after the other; only the sections under the policy lock are interleaved.
- TieredMemory.TieredMemoryManager.constructor: takes a warm store without expiring entries, because the manager never gives a time to live; None as a stored value is not modelled.
- The access counts, times and tier field of memory entries, embeddings, search and the background scan; the Redis and vector stores are not modelled beyond an ideal cold store.
- Thought values are reals and the objects of the tree are indices into an arena; the recognition of `Thought N:` lines before deduplication, prompts, token usage and the parsing of scores are part of the oracle.
- Negative search or cache sizes.
- `prefixItems`, recursive `$defs` and other keywords in the meaning of schemas: they are translated as in the code but are outside the fragment. The recursion limit of the interpreter is a fuel argument, and the results hold for every amount of fuel within which references are acyclic.
- Formats, number ranges and string patterns in what a schema accepts.
- Delegation.VerifyDelegationChain: does not model real signatures, claims of another type than the check expects, and of the token object only the claims without which it cannot be built; time is fixed during one verification, and resolving an issuer is a function of its id.
- Loading recordings from files and the shape of the returned response.
