/** Runs keep the types of the state, so a checkpoint can be resumed as it is (src/orchestra/core/compiled.py). */
module TypedRuns {
  import opened Wrappers
  import opened WorkflowState
  import opened FanIn
  import opened Edges
  import opened Engine

  ghost predicate TypedOutcome(schema: Schema, o: Outcome) {
    match o
    case Finished(s) => WellTyped(schema, s)
    case Interrupted(cp) => WellTyped(schema, cp.state)
    case Failed(_) => true
  }

  /** From a well-typed state every run ends, or pauses, in a well-typed state. */
  lemma {:induction false} RunKeepsTypes(g: Graph, c: Config, bypass: bool)
    requires WellTyped(g.schema, c.state)
    ensures TypedOutcome(g.schema, Run(g, c, bypass).outcome)
    decreases g.maxTurns - c.progress.turn
  {
    if c.at.At? && c.progress.turn < g.maxTurns {
      var step := Step(g, c, bypass);
      if step.Moved? {
        RunKeepsTypes(g, step.next, false);
      }
    }
  }

  /** Resuming without edits is resuming on the checkpoint's state; edits of declared fields replace their values. */
  lemma EditsReplaceFields(schema: Schema, s: State, edits: State)
    requires WellTyped(schema, s)
    ensures Edited(schema, s, map[]) == Ok(s)
    ensures Edited(schema, s, edits).Ok? <==>
            forall k :: k in edits && k in schema ==> KindOf(edits[k]) == schema[k].kind
    ensures Edited(schema, s, edits).Ok? ==>
              var t := Edited(schema, s, edits).value;
              t.Keys == s.Keys && forall k :: k in s ==> t[k] == if k in edits then edits[k] else s[k]
  {
    assert (map k | k in s + map[] && k in schema :: (s + map[])[k]) == s;
    var data := map k | k in s + edits && k in schema :: (s + edits)[k];
    assert data.Keys == s.Keys;
    assert forall k :: k in s ==> data[k] == if k in edits then edits[k] else s[k];
  }
}
