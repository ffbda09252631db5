/** Coalescing concurrent calls for one key (src/orchestra/memory/singleflight.py). */
module SingleFlight {
  import opened Wrappers

  /** How a call, or the function it runs, can end. */
  datatype Outcome<T> = Value(value: T) | Raised(error: string) | Cancelled | InvalidState

  datatype Future<T> = Pending | Done(outcome: Outcome<T>)

  /** The dictionary of futures by key; a future is named by its place among all futures created. */
  datatype Table<T> = Table(inflight: map<string, nat>, futures: seq<Future<T>>)

  // ---- The sections between two awaits ----

  /** Up to the first await: join the future of the key, or register a new one. */
  function Entered<T>(t: Table<T>, key: string): (r: (Table<T>, nat, bool)) {
    if key in t.inflight then (t, t.inflight[key], false)
    else (Table(t.inflight[key := |t.futures|], t.futures + [Pending]), |t.futures|, true)
  }

  /** The finally block. */
  function Released<T>(t: Table<T>, key: string, f: nat): Table<T> {
    if key in t.inflight && t.inflight[key] == f then t.(inflight := t.inflight - {key}) else t
  }

  /**
   From the end of fn to the return. A future that was cancelled meanwhile refuses both set_result and
   set_exception, so the leader then ends in InvalidStateError.
   */
  function Settled<T>(t: Table<T>, key: string, f: nat, outcome: Outcome<T>): (r: (Table<T>, Outcome<T>))
    requires f < |t.futures|
  {
    var free := Released(t, key, f);
    if t.futures[f].Pending? then (free.(futures := t.futures[f := Done(outcome)]), outcome) else (free, InvalidState)
  }

  class SingleFlight<T> {
    var inflight: map<string, nat>
    var futures: seq<Future<T>>

    ghost function Contents(): Table<T>
      reads this
    {
      Table(inflight, futures)
    }

    constructor ()
      ensures Contents() == Table(map[], [])
    {
      inflight := map[];
      futures := [];
    }

    /** do, up to its first await; leads says whether fn is to be run. */
    method Enter(key: string) returns (f: nat, leads: bool)
      modifies this
      ensures (Contents(), f, leads) == Entered(old(Contents()), key)
    {
      if key in inflight {
        return inflight[key], false;
      }
      f := |futures|;
      futures := futures + [Pending];
      inflight := inflight[key := f];
      leads := true;
    }

    /** do, after fn ended with a result or an exception. */
    method Settle(key: string, f: nat, outcome: Outcome<T>) returns (ends: Outcome<T>)
      requires f < |futures|
      modifies this
      ensures (Contents(), ends) == Settled(old(Contents()), key, f, outcome)
    {
      if futures[f].Pending? {
        futures := futures[f := Done(outcome)];
        ends := outcome;
      } else {
        ends := InvalidState;
      }
      Release(key, f);
    }

    method Release(key: string, f: nat)
      modifies this`inflight
      ensures Contents() == Released(old(Contents()), key, f)
    {
      if key in inflight && inflight[key] == f {
        inflight := inflight - {key};
      }
    }
  }

  // ---- All interleavings ----

  /** Where one execution of fn is; Ended keeps how fn ended, Stopped if CancelledError left it. */
  datatype Phase<T> = Running | Ended(outcome: Outcome<T>) | Stopped

  datatype Execution<T> = Execution(key: string, phase: Phase<T>)

  /** A call of do: the future it leads or joined, and how it ended if it has. */
  datatype Call<T> = Call(future: nat, leads: bool, ended: Option<Outcome<T>>)

  datatype State<T> = State(table: Table<T>, executions: seq<Execution<T>>, calls: seq<Call<T>>)

  datatype Event<T> =
    | Arrive(key: string)                       // a new call
    | Finish(call: nat, outcome: Outcome<T>)    // the leader's fn returns or raises
    | Wake(call: nat)                           // a joined call sees its future done
    | Cancel(call: nat)                         // the task of a call is cancelled
    | Abort(call: nat)                          // fn raises CancelledError, its task not being cancelled

  function Initial<T>(): State<T> {
    State(Table(map[], []), [], [])
  }

  predicate Waiting<T>(s: State<T>, c: nat) {
    c < |s.calls| && s.calls[c].ended.None? && s.calls[c].future < |s.table.futures| == |s.executions|
  }

  predicate Enabled<T>(s: State<T>, e: Event<T>) {
    match e
    case Arrive(_) => true
    case Finish(c, o) => Waiting(s, c) && s.calls[c].leads && (o.Value? || o.Raised?)
    case Wake(c) => Waiting(s, c) && !s.calls[c].leads && s.table.futures[s.calls[c].future].Done?
    case Cancel(c) => Waiting(s, c)
    case Abort(c) => Waiting(s, c) && s.calls[c].leads
  }

  function Close<T>(s: State<T>, c: nat, o: Outcome<T>): State<T>
    requires c < |s.calls|
  {
    s.(calls := s.calls[c := s.calls[c].(ended := Some(o))])
  }

  function Step<T>(s: State<T>, e: Event<T>): State<T>
    requires Enabled(s, e)
  {
    match e
    case Arrive(key) =>
      var (t, f, leads) := Entered(s.table, key);
      var executions := if leads then s.executions + [Execution(key, Running)] else s.executions;
      State(t, executions, s.calls + [Call(f, leads, None)])
    case Finish(c, o) =>
      var f := s.calls[c].future;
      var (t, ends) := Settled(s.table, s.executions[f].key, f, o);
      Close(State(t, s.executions[f := s.executions[f].(phase := Ended(o))], s.calls), c, ends)
    case Wake(c) => Close(s, c, s.table.futures[s.calls[c].future].outcome)
    case Cancel(c) =>
      var f := s.calls[c].future;
      if s.calls[c].leads then Unwound(s, c)
      else if s.table.futures[f].Pending? then
        // Cancelling a task that awaits a future cancels that future.
        Close(s.(table := s.table.(futures := s.table.futures[f := Done(Cancelled)])), c, Cancelled)
      else
        Close(s, c, Cancelled)
    case Abort(c) => Unwound(s, c)
  }

  /** CancelledError is no Exception: it leaves fn and then do, past the handler; only the finally block runs. */
  function Unwound<T>(s: State<T>, c: nat): State<T>
    requires Waiting(s, c)
  {
    var f := s.calls[c].future;
    var executions := s.executions[f := s.executions[f].(phase := Stopped)];
    Close(State(Released(s.table, s.executions[f].key, f), executions, s.calls), c, Cancelled)
  }

  predicate Possible<T>(s: State<T>, events: seq<Event<T>>)
    decreases |events|
  {
    events == [] || (Enabled(s, events[0]) && Possible(Step(s, events[0]), events[1..]))
  }

  function Run<T>(s: State<T>, events: seq<Event<T>>): State<T>
    requires Possible(s, events)
    decreases |events|
  {
    if events == [] then s else Run(Step(s, events[0]), events[1..])
  }

  // ---- The invariant ----

  /** The dictionary names exactly the running executions, each under its key. */
  predicate Registered<T>(s: State<T>) {
    && |s.table.futures| == |s.executions|
    && (forall k :: k in s.table.inflight ==>
          && s.table.inflight[k] < |s.executions|
          && s.executions[s.table.inflight[k]] == Execution(k, Running))
    && (forall f :: 0 <= f < |s.executions| && s.executions[f].phase.Running? ==>
          s.executions[f].key in s.table.inflight && s.table.inflight[s.executions[f].key] == f)
  }

  /** A future is pending, or holds how its execution ended, or was cancelled. */
  ghost predicate Reported<T>(s: State<T>) {
    && |s.table.futures| == |s.executions|
    && forall f :: 0 <= f < |s.executions| ==>
         || (s.table.futures[f].Pending? && !s.executions[f].phase.Ended?)
         || s.table.futures[f] == Done(Cancelled)
         || (s.executions[f].phase.Ended? && s.table.futures[f] == Done(s.executions[f].phase.outcome))
  }

  /** How a call may have ended, given its execution and its future. */
  ghost predicate Justified<T>(s: State<T>, c: Call<T>) {
    && c.future < |s.executions| == |s.table.futures|
    && (c.leads ==> (c.ended.None? <==> s.executions[c.future].phase.Running?))
    && (c.ended.Some? ==>
          || c.ended == Some(Cancelled)
          || (&& s.executions[c.future].phase.Ended?
              && s.table.futures[c.future] == Done(s.executions[c.future].phase.outcome)
              && c.ended == Some(s.executions[c.future].phase.outcome))
          || (c.leads && c.ended == Some(InvalidState) && s.table.futures[c.future] == Done(Cancelled)))
  }

  ghost predicate Accounted<T>(s: State<T>) {
    && (forall c :: 0 <= c < |s.calls| ==> Justified(s, s.calls[c]))
    && (forall c, d :: 0 <= c < d < |s.calls| && s.calls[c].leads && s.calls[d].leads ==>
          s.calls[c].future != s.calls[d].future)
  }

  ghost predicate Inv<T>(s: State<T>) {
    Registered(s) && Reported(s) && Accounted(s)
  }

  lemma StepKeepsReported<T>(s: State<T>, e: Event<T>)
    requires Inv(s) && Enabled(s, e)
    ensures Reported(Step(s, e))
  {
  }

  lemma StepKeepsAccounted<T>(s: State<T>, e: Event<T>)
    requires Inv(s) && Enabled(s, e)
    ensures Accounted(Step(s, e))
  {
    var s' := Step(s, e);
    forall c | 0 <= c < |s'.calls|
      ensures Justified(s', s'.calls[c])
    {
      if c < |s.calls| {
        assert Justified(s, s.calls[c]);
      }
    }
  }

  lemma StepKeepsInv<T>(s: State<T>, e: Event<T>)
    requires Inv(s) && Enabled(s, e)
    ensures Inv(Step(s, e))
  {
    StepKeepsReported(s, e);
    StepKeepsAccounted(s, e);
  }

  /** Every reachable state, cancellations included. */
  lemma {:induction false} RunKeepsInv<T>(s: State<T>, events: seq<Event<T>>)
    requires Inv(s) && Possible(s, events)
    ensures Inv(Run(s, events))
    decreases |events|
  {
    if events != [] {
      StepKeepsInv(s, events[0]);
      RunKeepsInv(Step(s, events[0]), events[1..]);
    }
  }

  // ---- What the callers can rely on ----

  ghost predicate RunsUnder<T>(s: State<T>, f: nat, key: string) {
    f < |s.executions| && s.executions[f] == Execution(key, Running)
  }

  /** At most one execution runs for a key. */
  lemma OneExecutionPerKey<T>(events: seq<Event<T>>, key: string, f: nat, g: nat)
    requires Possible(Initial(), events)
    requires RunsUnder(Run(Initial(), events), f, key) && RunsUnder(Run(Initial(), events), g, key)
    ensures f == g
  {
    RunKeepsInv(Initial<T>(), events);
  }

  /** Whenever a leader comes back from fn, the identity test before the removal succeeds. */
  lemma IdentityTestSucceeds<T>(events: seq<Event<T>>, c: nat)
    requires Possible(Initial(), events)
    requires Waiting(Run(Initial(), events), c) && Run(Initial(), events).calls[c].leads
    ensures var s := Run(Initial(), events);
            var key := s.executions[s.calls[c].future].key;
            key in s.table.inflight && s.table.inflight[key] == s.calls[c].future
  {
    RunKeepsInv(Initial<T>(), events);
    var s := Run(Initial(), events);
    assert Justified(s, s.calls[c]);
  }

  /** A call runs fn itself exactly when no execution is running for its key. */
  lemma FreshStart<T>(events: seq<Event<T>>, key: string)
    requires Possible(Initial(), events)
    ensures var s := Run(Initial(), events);
            Entered(s.table, key).2 <==>
            forall f :: 0 <= f < |s.executions| && s.executions[f].phase.Running? ==> s.executions[f].key != key
  {
    RunKeepsInv(Initial<T>(), events);
  }

  // ---- Who gets the outcome of an execution ----

  /** How an execution ended is what its fn returned or raised. */
  ghost predicate OwnOutcomes<T>(s: State<T>) {
    forall f :: 0 <= f < |s.executions| && s.executions[f].phase.Ended? ==>
      s.executions[f].phase.outcome.Value? || s.executions[f].phase.outcome.Raised?
  }

  lemma {:induction false} RunKeepsOutcomes<T>(s: State<T>, events: seq<Event<T>>)
    requires Inv(s) && OwnOutcomes(s) && Possible(s, events)
    ensures OwnOutcomes(Run(s, events))
    decreases |events|
  {
    if events != [] {
      StepKeepsInv(s, events[0]);
      assert OwnOutcomes(Step(s, events[0]));
      RunKeepsOutcomes(Step(s, events[0]), events[1..]);
    }
  }

  /** Its future is pending while the execution runs and holds its outcome afterwards. */
  ghost predicate Calm<T>(s: State<T>, f: nat) {
    && f < |s.executions| == |s.table.futures|
    && if s.executions[f].phase.Ended? then s.table.futures[f] == Done(s.executions[f].phase.outcome)
       else s.executions[f].phase.Running? && s.table.futures[f].Pending?
  }

  /** fn was left by CancelledError and its future will never be done. */
  predicate Stranded<T>(s: State<T>, f: nat) {
    && f < |s.executions| == |s.table.futures|
    && s.executions[f].phase.Stopped?
    && s.table.futures[f].Pending?
  }

  /** A call that joined was cancelled while the future was pending; its other open calls cannot end well any more. */
  ghost predicate Poisoned<T>(s: State<T>, f: nat) {
    f < |s.executions| == |s.table.futures| && s.table.futures[f] == Done(Cancelled)
  }

  predicate Interrupts<T>(e: Event<T>) {
    e.Cancel? || e.Abort?
  }

  /** The event brings CancelledError to a call of the future while the execution is running. */
  predicate Disturbs<T>(s: State<T>, e: Event<T>, f: nat) {
    && Interrupts(e)
    && e.call < |s.calls| && s.calls[e.call].future == f
    && f < |s.executions| && s.executions[f].phase.Running?
  }

  predicate RunDisturbs<T>(s: State<T>, events: seq<Event<T>>, f: nat)
    requires Possible(s, events)
    decreases |events|
  {
    events != [] && (Disturbs(s, events[0], f) || RunDisturbs(Step(s, events[0]), events[1..], f))
  }

  /** Some event brings CancelledError to the call itself. */
  predicate Interrupted<T>(events: seq<Event<T>>, c: nat) {
    exists i :: 0 <= i < |events| && Interrupts(events[i]) && events[i].call == c
  }

  /** The call, if it is one of the future's, has not ended as cancelled. */
  predicate Intact<T>(s: State<T>, f: nat, c: nat) {
    c < |s.calls| && s.calls[c].future == f ==> s.calls[c].ended != Some(Cancelled)
  }

  lemma StepKeepsCalm<T>(s: State<T>, e: Event<T>, f: nat, c: nat)
    requires Inv(s) && OwnOutcomes(s) && Enabled(s, e) && !Disturbs(s, e, f) && !(Interrupts(e) && e.call == c)
    requires f < |s.executions| ==> Calm(s, f)
    requires Intact(s, f, c)
    ensures f < |Step(s, e).executions| ==> Calm(Step(s, e), f)
    ensures Intact(Step(s, e), f, c)
  {
    if !e.Arrive? {
      assert Justified(s, s.calls[e.call]);
    }
  }

  lemma StepDisturbs<T>(s: State<T>, e: Event<T>, f: nat)
    requires Inv(s) && OwnOutcomes(s) && Enabled(s, e)
    requires Stranded(s, f) || Poisoned(s, f) || Disturbs(s, e, f)
    ensures Stranded(Step(s, e), f) || Poisoned(Step(s, e), f)
  {
    if !e.Arrive? {
      assert Justified(s, s.calls[e.call]);
    }
  }

  lemma {:induction false} RunKeepsCalm<T>(s: State<T>, events: seq<Event<T>>, f: nat, c: nat)
    requires Inv(s) && OwnOutcomes(s) && Possible(s, events) && !RunDisturbs(s, events, f) && !Interrupted(events, c)
    requires (f < |s.executions| ==> Calm(s, f)) && Intact(s, f, c)
    ensures f < |Run(s, events).executions| ==> Calm(Run(s, events), f)
    ensures Intact(Run(s, events), f, c)
    decreases |events|
  {
    if events != [] {
      var e, s' := events[0], Step(s, events[0]);
      StepKeepsInv(s, e);
      assert OwnOutcomes(s');
      StepKeepsCalm(s, e, f, c);
      assert forall i :: 0 <= i < |events[1..]| ==> events[1..][i] == events[i + 1];
      RunKeepsCalm(s', events[1..], f, c);
    }
  }

  lemma {:induction false} RunStaysDisturbed<T>(s: State<T>, events: seq<Event<T>>, f: nat)
    requires Inv(s) && OwnOutcomes(s) && Possible(s, events)
    requires Stranded(s, f) || Poisoned(s, f) || RunDisturbs(s, events, f)
    ensures Stranded(Run(s, events), f) || Poisoned(Run(s, events), f)
    decreases |events|
  {
    if events != [] {
      var e, s' := events[0], Step(s, events[0]);
      StepKeepsInv(s, e);
      assert OwnOutcomes(s');
      if Stranded(s, f) || Poisoned(s, f) || Disturbs(s, e, f) {
        StepDisturbs(s, e, f);
      }
      RunStaysDisturbed(s', events[1..], f);
    }
  }

  /**
   The call has ended as fn did, or can wake up to that; while fn runs, the call is open and so is its future.
   */
  ghost predicate Served<T>(s: State<T>, c: nat)
    requires c < |s.calls|
  {
    var call := s.calls[c];
    && call.future < |s.executions| == |s.table.futures|
    && match s.executions[call.future].phase
       case Running => call.ended.None? && s.table.futures[call.future].Pending?
       case Ended(o) =>
         || call.ended == Some(o)
         || (call.ended.None? && Enabled(s, Wake(c)) && Step(s, Wake(c)).calls[c].ended == Some(o))
       case Stopped => false
  }

  /**
   In every interleaving and for every call that CancelledError did not reach itself: the call gets the result or error
   of its execution if and only if, while fn ran, it reached no other call of the same execution either, be it that a
   task was cancelled or that fn raised it.
   */
  lemma EveryCallerGetsTheExecution<T>(events: seq<Event<T>>, c: nat)
    requires Possible(Initial(), events) && c < |Run(Initial(), events).calls| && !Interrupted(events, c)
    ensures Served(Run(Initial(), events), c) <==>
            !RunDisturbs(Initial(), events, Run(Initial(), events).calls[c].future)
  {
    var s := Run(Initial(), events);
    var f := s.calls[c].future;
    RunKeepsInv(Initial<T>(), events);
    RunKeepsOutcomes(Initial<T>(), events);
    assert Justified(s, s.calls[c]);
    if RunDisturbs(Initial(), events, f) {
      RunStaysDisturbed(Initial<T>(), events, f);
    } else {
      RunKeepsCalm(Initial<T>(), events, f, c);
    }
  }

  // ---- Cancellation ----

  /** None of the events brings CancelledError to one of the calls of the future. */
  predicate Spares<T>(s: State<T>, events: seq<Event<T>>, f: nat) {
    forall i :: 0 <= i < |events| && Interrupts(events[i]) ==>
      events[i].call >= |s.calls| || s.calls[events[i].call].future != f
  }

  /**
   Cancelling a leader, or an fn that raises CancelledError, stops the execution and frees its key, and touches no call
   but the leader: the joined calls are stranded, or poisoned if one of them was cancelled before.
   */
  lemma CancelledLeaderEffect<T>(s: State<T>, leader: nat, e: Event<T>)
    requires Inv(s) && Waiting(s, leader) && s.calls[leader].leads && (e == Cancel(leader) || e == Abort(leader))
    ensures var f, t := s.calls[leader].future, Step(s, e);
            && (s.table.futures[f].Pending? ==> Stranded(t, f))
            && (s.table.futures[f].Done? ==> Poisoned(t, f))
            && s.executions[f].key !in t.table.inflight
            && t.calls == s.calls[leader := Call(f, true, Some(Cancelled))]
  {
    assert Justified(s, s.calls[leader]);
  }

  /** Stranded calls stay as they are: no run ever ends them. */
  lemma {:induction false} CancelledLeaderStrandsJoined<T>(s: State<T>, events: seq<Event<T>>, f: nat)
    requires Inv(s) && Stranded(s, f) && Possible(s, events) && Spares(s, events, f)
    ensures Stranded(Run(s, events), f)
    ensures forall c :: 0 <= c < |s.calls| && s.calls[c].future == f ==>
              c < |Run(s, events).calls| && Run(s, events).calls[c] == s.calls[c]
    decreases |events|
  {
    if events != [] {
      var e := events[0];
      var s' := Step(s, e);
      StepKeepsStranded(s, e, f);
      StepKeepsInv(s, e);
      assert Spares(s', events[1..], f) by {
        forall i | 0 <= i < |events[1..]| && Interrupts(events[1..][i])
          ensures events[1..][i].call >= |s'.calls| || s'.calls[events[1..][i].call].future != f
        {
          assert events[1..][i] == events[i + 1];
        }
      }
      CancelledLeaderStrandsJoined(s', events[1..], f);
    }
  }

  lemma StepKeepsStranded<T>(s: State<T>, e: Event<T>, f: nat)
    requires Inv(s) && Stranded(s, f) && Enabled(s, e)
    requires Interrupts(e) ==> s.calls[e.call].future != f
    ensures Stranded(Step(s, e), f)
    ensures |s.calls| <= |Step(s, e).calls|
    ensures forall c :: 0 <= c < |s.calls| ==> Step(s, e).calls[c].future == s.calls[c].future
    ensures forall c :: 0 <= c < |s.calls| && s.calls[c].future == f ==> Step(s, e).calls[c] == s.calls[c]
    ensures forall c :: |s.calls| <= c < |Step(s, e).calls| ==> Step(s, e).calls[c].future != f
  {
    if e.Finish? || e.Abort? {
      assert Justified(s, s.calls[e.call]);
    }
  }

  /** How a call of a poisoned future can end. */
  ghost predicate EndsBadly<T>(c: Call<T>) {
    c.ended.None? || c.ended == Some(Cancelled) || (c.leads && c.ended == Some(InvalidState))
  }

  /**
   Cancelling a joined call while the future is pending poisons it: in every later run the future stays cancelled, calls
   that had ended are as they were, and every other call, a later one too, stays open or ends as Cancelled, the leader
   perhaps in InvalidState, whatever fn returned.
   */
  lemma {:induction false} CancelledJoinerPoisons<T>(s: State<T>, events: seq<Event<T>>, f: nat)
    requires Inv(s) && OwnOutcomes(s) && Poisoned(s, f) && Possible(s, events)
    ensures Poisoned(Run(s, events), f)
    ensures var t := Run(s, events);
            && |s.calls| <= |t.calls|
            && (forall c :: 0 <= c < |s.calls| && s.calls[c].ended.Some? ==> t.calls[c] == s.calls[c])
            && (forall c :: 0 <= c < |t.calls| && t.calls[c].future == f ==> EndsBadly(t.calls[c]))
    decreases |events|
  {
    if events == [] {
      forall c | 0 <= c < |s.calls| && s.calls[c].future == f
        ensures EndsBadly(s.calls[c])
      {
        assert Justified(s, s.calls[c]);
      }
    } else {
      var e := events[0];
      StepKeepsInv(s, e);
      assert OwnOutcomes(Step(s, e));
      CancelledJoinerPoisons(Step(s, e), events[1..], f);
    }
  }

  /** Cancelling a joined call: before fn ended it poisons the future; afterwards it touches no call but its own. */
  lemma CancelledJoinerEffect<T>(s: State<T>, joined: nat)
    requires Inv(s) && Waiting(s, joined) && !s.calls[joined].leads
    ensures var f, t := s.calls[joined].future, Step(s, Cancel(joined));
            && (s.table.futures[f].Pending? ==> Poisoned(t, f))
            && (s.table.futures[f].Done? ==> t.table == s.table)
            && t.executions == s.executions && t.calls == s.calls[joined := Call(f, false, Some(Cancelled))]
  {
  }

  /** Cancelling a call that joined cancels the shared future: the leader then fails although fn succeeded. */
  lemma CancelledJoinerFailsLeader<T>(s: State<T>, joined: nat, leader: nat, outcome: Outcome<T>)
    requires Inv(s) && Waiting(s, joined) && Waiting(s, leader) && outcome.Value?
    requires !s.calls[joined].leads && s.calls[leader].leads && s.calls[joined].future == s.calls[leader].future
    ensures Enabled(s, Cancel(joined)) && Enabled(Step(s, Cancel(joined)), Finish(leader, outcome))
    ensures Step(Step(s, Cancel(joined)), Finish(leader, outcome)).calls[leader].ended == Some(InvalidState)
  {
    var f := s.calls[leader].future;
    assert Justified(s, s.calls[leader]);
    assert s.executions[f].phase.Running?;
  }

  // ---- Two runs ----

  lemma OneMore<T>(s: State<T>, e: Event<T>, events: seq<Event<T>>)
    requires Enabled(s, e)
    ensures Possible(s, [e] + events) <==> Possible(Step(s, e), events)
    ensures Possible(s, [e] + events) ==> Run(s, [e] + events) == Run(Step(s, e), events)
  {
    assert ([e] + events)[1..] == events;
  }

  /** One call has joined another. */
  function Joined<T>(key: string): State<T> {
    State(Table(map[key := 0], [Pending]), [Execution(key, Running)], [Call(0, true, None), Call(0, false, None)])
  }

  lemma TwoArrive<T>(key: string, events: seq<Event<T>>)
    requires Possible(Joined(key), events)
    ensures Possible(Initial(), [Arrive(key)] + ([Arrive(key)] + events))
    ensures Run(Initial(), [Arrive(key)] + ([Arrive(key)] + events)) == Run(Joined(key), events)
  {
    var one := Step(Initial<T>(), Arrive(key));
    OneMore(one, Arrive(key), events);
    OneMore(Initial(), Arrive(key), [Arrive(key)] + events);
    assert Step(one, Arrive(key)) == Joined(key);
  }

  /** The leader is cancelled, or fn raises CancelledError: the joined call hangs, and a third starts afresh. */
  lemma JoinedCallHangs<T>(key: string, e: Event<T>)
    requires e == Cancel(0) || e == Abort(0)
    ensures var events := [Arrive(key), Arrive(key), e, Arrive(key)];
            && Possible(Initial(), events)
            && Run(Initial(), events).calls ==
               [Call(0, true, Some(Cancelled)), Call(0, false, None), Call(1, true, None)]
            && Stranded(Run(Initial(), events), 0)
  {
    var s := Step(Joined<T>(key), e);
    assert s.table.inflight == map[];
    OneMore(s, Arrive(key), []);
    OneMore(Joined(key), e, [Arrive(key)] + []);
    TwoArrive(key, [e] + ([Arrive(key)] + []));
    assert [Arrive(key)] + ([Arrive(key)] + ([e] + ([Arrive(key)] + []))) == [Arrive(key), Arrive(key), e, Arrive(key)];
  }

  /** A joined call is cancelled, and then fn succeeds: the leader and the third call fail all the same. */
  lemma NobodyGetsTheValue<T>(key: string, value: T)
    ensures var events := [Arrive(key), Arrive(key), Arrive(key), Cancel(1), Finish(0, Value(value)), Wake(2)];
            && Possible(Initial(), events)
            && Run(Initial(), events).executions == [Execution(key, Ended(Value(value)))]
            && Run(Initial(), events).calls ==
               [Call(0, true, Some(InvalidState)), Call(0, false, Some(Cancelled)), Call(0, false, Some(Cancelled))]
  {
    var finish := Finish(0, Value(value));
    var three := Step(Joined<T>(key), Arrive(key));
    var cancelled := Step(three, Cancel(1));
    var finished := Step(cancelled, finish);
    OneMore(finished, Wake(2), []);
    OneMore(cancelled, finish, [Wake(2)] + []);
    OneMore(three, Cancel(1), [finish] + ([Wake(2)] + []));
    var rest := [Cancel(1)] + ([finish] + ([Wake(2)] + []));
    OneMore(Joined(key), Arrive(key), rest);
    TwoArrive(key, [Arrive(key)] + rest);
    assert [Arrive(key)] + ([Arrive(key)] + ([Arrive(key)] + rest)) ==
           [Arrive(key), Arrive(key), Arrive(key), Cancel(1), finish, Wake(2)];
  }
}
