/** Sequences of budget transactions: conservation, exactly-once debits, limits, reserve and finalize. */
module BudgetRuns {
  import opened Wrappers
  import opened BudgetLedger
  import opened BudgetWalks
  import opened BudgetInvariants

  // ---- Transactions and runs ----

  datatype Op =
    | OpenAccount(t: string, parent: Option<string>, limit: int, daily: bool, now: Clock)
    | Reserve(t: string, amount: int, run: string, key: string, now: Clock)
    | Finalize(t: string, run: string, actual: int, key: string)

  function Attempt(db: Db, op: Op): Result<Db, BudgetError> {
    match op
    case OpenAccount(t, parent, limit, daily, now) => Created(db, t, parent, limit, daily, now)
    case Reserve(t, amount, run, key, now) => Debited(db, t, amount, run, key, now)
    case Finalize(t, run, actual, key) => Adjusted(db, t, run, actual, key)
  }

  /** A transaction that raises leaves the tables as they were. */
  function Apply(db: Db, op: Op): Db {
    match Attempt(db, op) case Ok(d) => d case Err(_) => db
  }

  function Applied(db: Db, ops: seq<Op>): Db {
    if ops == [] then db else Apply(Applied(db, ops[..|ops| - 1]), ops[|ops| - 1])
  }

  /** Ids and periods contain no bar, and no account changes its parent. */
  ghost predicate Allowed(db: Db, op: Op) {
    match op
    case OpenAccount(t, parent, limit, daily, _) =>
      && NoBar(t)
      && (t in db.accounts ==>
            ParentOf(db.accounts[t := Account(parent, limit, daily)], t) == ParentOf(db.accounts, t))
    case Reserve(_, _, _, _, now) => NoBar(now.day) && NoBar(now.month)
    case Finalize(_, _, _, _) => true
  }

  ghost predicate AllowedRun(db: Db, ops: seq<Op>) {
    ops == [] ||
    (AllowedRun(db, ops[..|ops| - 1]) && Allowed(Applied(db, ops[..|ops| - 1]), ops[|ops| - 1]))
  }

  // ---- Adjusting and opening accounts keep the invariant ----

  lemma {:induction false} FirstEstimateFound(ledger: seq<Row>, t: string, run: string)
    ensures var r := FirstEstimate(ledger, t, run);
            if r.Some? then r.value in ledger && IsEstimate(r.value, t, run)
            else forall e :: e in ledger ==> !IsEstimate(e, t, run)
  {
    if ledger != [] {
      FirstEstimateFound(ledger[1..], t, run);
      assert ledger == [ledger[0]] + ledger[1..];
    }
  }

  /** The credit row an adjustment of this estimate adds. */
  function CreditRow(estimate: Row, run: string, actual: int, key: string): Row {
    Row(estimate.tenant, CreditCorrection, estimate.amount - actual, Some(run), Client(key), estimate.period)
  }

  lemma EstimateIsGood(db: Db, t: string, run: string) returns (e: Row)
    requires Inv(db) && FirstEstimate(db.ledger, t, run).Some?
    ensures FirstEstimate(db.ledger, t, run) == Some(e) && e in db.ledger && IsEstimate(e, t, run) && GoodRow(db, e)
  {
    FirstEstimateFound(db.ledger, t, run);
    e := FirstEstimate(db.ledger, t, run).value;
  }

  /** d is b with a credit row for this estimate and its chain's balances moved by the difference. */
  ghost predicate Credits(b: Db, d: Db, e: Row, run: string, actual: int, key: string) {
    && Chain(b.accounts, e.tenant, {}).Some?
    && d.accounts == b.accounts
    && d.ledger == b.ledger + [CreditRow(e, run, actual, key)]
    && Moves(b, d, Chain(b.accounts, e.tenant, {}).value, actual - e.amount, e.period)
  }

  lemma AdjustCredits(db: Db, t: string, run: string, actual: int, key: string, e: Row)
    requires Closed(db.accounts) && GoodRow(db, e) && IsEstimate(e, t, run)
    requires FirstEstimate(db.ledger, t, run) == Some(e) && !HasKey(db.ledger, Client(key))
    ensures Adjusted(db, t, run, actual, key).Ok?
    ensures Credits(db, Adjusted(db, t, run, actual, key).value, e, run, actual, key)
  {
    var credited := db.(ledger := db.ledger + [CreditRow(e, run, actual, key)]);
    var c := Chain(db.accounts, t, {}).value;
    forall x | x in c ensures (x, e.period) in credited.balances {
      assert Covers(db.accounts, t, x);
    }
    ShiftMovesChain(credited, t, actual - e.amount, e.period, {});
    assert forall a, q :: Spent(credited, a, q) == Spent(db, a, q);
  }

  lemma CreditKeepsExactlyOnce(db: Db, credit: Row)
    requires ExactlyOnce(db.accounts, db.ledger) && credit.kind.CreditCorrection? && credit.key.Client?
    requires !HasKey(db.ledger, credit.key)
    ensures ExactlyOnce(db.accounts, db.ledger + [credit])
  {
    var ledger := db.ledger + [credit];
    assert forall r :: r in ledger <==> r in db.ledger || r == credit;
    forall i, j | 0 <= i < j < |ledger| ensures ledger[i].key != ledger[j].key {
      assert ledger[i] in db.ledger;
    }
    forall d | d in ledger && d.kind.DebitEstimate? && d.key.Client? ensures ChargedOnce(db.accounts, ledger, d) {
      assert ChargedOnce(db.accounts, db.ledger, d);
    }
    forall r | r in ledger && r.kind.ParentDebit? ensures Owned(ledger, r) {
      assert Owned(db.ledger, r);
    }
  }

  lemma CreditKeepsRowsGood(b: Db, d: Db, e: Row, run: string, actual: int, key: string)
    requires GoodRows(b) && GoodRow(b, e) && Credits(b, d, e, run, actual, key)
    ensures GoodRows(d)
  {
    forall r | r in d.ledger ensures GoodRow(d, r) {
      if r in b.ledger {
        assert GoodRow(b, r);
      }
    }
  }

  lemma AdjustKeepsInv(db: Db, t: string, run: string, actual: int, key: string)
    requires Inv(db) && Adjusted(db, t, run, actual, key).Ok?
    ensures Inv(Adjusted(db, t, run, actual, key).value)
  {
    if FirstEstimate(db.ledger, t, run).Some? {
      var d := Adjusted(db, t, run, actual, key).value;
      var e := EstimateIsGood(db, t, run);
      AdjustCredits(db, t, run, actual, key, e);
      CreditKeepsRowsGood(db, d, e, run, actual, key);
      CreditKeepsExactlyOnce(db, CreditRow(e, run, actual, key));
    }
  }

  lemma {:induction false} ChargedSurvives(db: Db, more: Accounts, ledger: seq<Row>, a: string, period: string)
    requires Closed(db.accounts)
    requires forall x :: x in db.accounts ==> x in more && ParentOf(more, x) == ParentOf(db.accounts, x)
    requires forall r :: r in ledger ==> r.tenant in db.accounts
    ensures Charged(more, ledger, a, period) == Charged(db.accounts, ledger, a, period)
    decreases |ledger|
  {
    if ledger != [] {
      var last := ledger[|ledger| - 1];
      assert last in ledger;
      ChainsSurvive(db.accounts, more, last.tenant, {});
      ChargedSurvives(db, more, ledger[..|ledger| - 1], a, period);
    }
  }

  lemma {:induction false} OpenKeepsChargedOnce(db: Db, more: Accounts, d: Row)
    requires Inv(db) && BarFree(more) && d in db.ledger && d.kind.DebitEstimate? && d.key.Client?
    requires forall x :: x in db.accounts ==> x in more && ParentOf(more, x) == ParentOf(db.accounts, x)
    ensures ChargedOnce(more, db.ledger, d)
  {
    assert GoodRow(db, d) && ChargedOnce(db.accounts, db.ledger, d);
    ChainsSurvive(db.accounts, more, d.tenant, {});
    ChainMembers(db.accounts, d.tenant, {});
    forall x, r | x in more && r in db.ledger && r.key == AncestorKey(d.key.key, x, d.period) ensures x in db.accounts {
      assert GoodRow(db, r) && Owned(db.ledger, r);
      var e :| e in db.ledger && Owns(e, r);
      assert GoodRow(db, e);
      AncestorKeyInjective(d.key.key, x, d.period, e.key.key, r.tenant, e.period);
    }
  }

  lemma OpenKeepsInv(db: Db, op: Op)
    requires Inv(db) && op.OpenAccount? && Allowed(db, op) && Attempt(db, op).Ok?
    ensures Inv(Apply(db, op))
  {
    var d := Apply(db, op);
    assert forall x :: x in db.accounts ==> ParentOf(d.accounts, x) == ParentOf(db.accounts, x);
    forall a, q ensures Spent(d, a, q) == Charged(d.accounts, d.ledger, a, q) {
      forall r | r in db.ledger ensures r.tenant in db.accounts {
        assert GoodRow(db, r);
      }
      ChargedSurvives(db, d.accounts, db.ledger, a, q);
      assert Spent(d, a, q) == Spent(db, a, q);
    }
    forall r | r in db.ledger ensures GoodRow(d, r) {
      assert GoodRow(db, r);
      ChainsSurvive(db.accounts, d.accounts, r.tenant, {});
    }
    forall e | e in db.ledger && e.kind.DebitEstimate? && e.key.Client? ensures ChargedOnce(d.accounts, d.ledger, e) {
      OpenKeepsChargedOnce(db, d.accounts, e);
    }
  }

  lemma StepKeepsInv(db: Db, op: Op)
    requires Inv(db) && Allowed(db, op)
    ensures Inv(Apply(db, op))
  {
    if Attempt(db, op).Ok? {
      match op {
        case OpenAccount(_, _, _, _, _) => OpenKeepsInv(db, op);
        case Reserve(t, amount, run, key, now) => DebitKeepsInv(db, t, amount, run, key, now);
        case Finalize(t, run, actual, key) => AdjustKeepsInv(db, t, run, actual, key);
      }
    }
  }

  /** Every state reached by allowed transactions is conserved, exactly-once and well-formed. */
  lemma {:induction false} RunKeepsInv(db: Db, ops: seq<Op>)
    requires Inv(db) && AllowedRun(db, ops)
    ensures Inv(Applied(db, ops))
    decreases |ops|
  {
    if ops != [] {
      RunKeepsInv(db, ops[..|ops| - 1]);
      LastKeepsInv(db, ops);
    }
  }

  lemma LastKeepsInv(db: Db, ops: seq<Op>)
    requires ops != [] && Inv(Applied(db, ops[..|ops| - 1]))
    requires Allowed(Applied(db, ops[..|ops| - 1]), ops[|ops| - 1])
    ensures Inv(Applied(db, ops))
  {
    StepKeepsInv(Applied(db, ops[..|ops| - 1]), ops[|ops| - 1]);
  }

  const EMPTY := Db(map[], [], map[])

  /**
   Conservation: after any allowed transactions, what a tenant has spent in a period is the sum over its
   whole subtree of estimates minus credits, and each estimate has charged its ancestor chain exactly once.
   */
  lemma {:induction false} ReachableStates(ops: seq<Op>)
    requires AllowedRun(EMPTY, ops)
    ensures var db := Applied(EMPTY, ops);
            && (forall a, period :: Spent(db, a, period) == Charged(db.accounts, db.ledger, a, period))
            && (forall d :: d in db.ledger && d.kind.DebitEstimate? ==>
                  d.key.Client? && Chain(db.accounts, d.tenant, {}).Some? && ChargedOnce(db.accounts, db.ledger, d))
            && (forall r :: r in db.ledger && r.kind.ParentDebit? ==> Owned(db.ledger, r))
  {
    assert Inv(EMPTY);
    RunKeepsInv(EMPTY, ops);
    var db := Applied(EMPTY, ops);
    forall d | d in db.ledger && d.kind.DebitEstimate?
      ensures d.key.Client? && Chain(db.accounts, d.tenant, {}).Some?
    {
      assert GoodRow(db, d);
    }
  }
}
