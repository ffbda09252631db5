/** Giving an account a parent that closes a cycle (src/orchestra/cost/persistent_budget.py). */
module BudgetCycles {
  import opened Wrappers
  import opened BudgetLedger
  import opened BudgetWalks
  import opened BudgetInvariants
  import opened BudgetRuns
  import opened BudgetMoves

  // ---- Which chains still end ----

  predicate Ends(accounts: Accounts, x: string) {
    Chain(accounts, x, {}).Some?
  }

  /** A member of a chain has a chain of its own, and no longer one. */
  lemma {:induction false} MembersEnd(accounts: Accounts, p: string, visited: set<string>, x: string)
    requires Chain(accounts, p, visited).Some? && x in Chain(accounts, p, visited).value
    ensures Ends(accounts, x) && |Chain(accounts, x, {}).value| <= |Chain(accounts, p, visited).value|
    decreases accounts.Keys - visited
  {
    if x == p {
      FewerVisited(accounts, p, {}, visited);
    } else {
      MembersEnd(accounts, ParentOf(accounts, p).value, visited + {p}, x);
    }
  }

  lemma {:induction false} MoreVisited(accounts: Accounts, p: string, visited: set<string>, x: string)
    requires x in accounts && Chain(accounts, p, visited).Some? && x !in Chain(accounts, p, visited).value
    ensures Chain(accounts, p, visited + {x}) == Chain(accounts, p, visited)
    decreases accounts.Keys - visited
  {
    if p in accounts {
      assert p in Chain(accounts, p, visited).value;
      if ParentOf(accounts, p).Some? {
        MoreVisited(accounts, ParentOf(accounts, p).value, visited + {p}, x);
        assert visited + {p} + {x} == visited + {x} + {p};
      }
    }
  }

  /** A chain ends if and only if that of the parent does. */
  lemma EndsWithParent(accounts: Accounts, x: string)
    requires x in accounts && ParentOf(accounts, x).Some?
    ensures var p := ParentOf(accounts, x).value;
            && (Ends(accounts, x) <==> Ends(accounts, p))
            && (Ends(accounts, x) ==> Chain(accounts, x, {}).value == [x] + Chain(accounts, p, {}).value)
  {
    var p := ParentOf(accounts, x).value;
    if Ends(accounts, x) {
      FewerVisited(accounts, p, {}, {} + {x});
    } else if Ends(accounts, p) {
      if x in Chain(accounts, p, {}).value {
        MembersEnd(accounts, p, {}, x);
      } else {
        MoreVisited(accounts, p, {}, x);
      }
    }
  }

  /** t got a new parent, or is new, and its links end no more. */
  ghost predicate ClosesCycle(before: Accounts, after: Accounts, t: string) {
    && AllEnd(before) && after.Keys == before.Keys + {t} && !Ends(after, t)
    && forall x :: x in before && x != t ==> ParentOf(after, x) == ParentOf(before, x)
  }

  /** Below the account no chain ends any more; all other chains are as they were. */
  lemma {:induction false} EndsUnlessBelow(before: Accounts, after: Accounts, t: string, x: string)
    requires ClosesCycle(before, after, t) && x in after
    ensures !Ends(after, x) <==> x == t || Covers(before, x, t)
    ensures Ends(after, x) ==> Chain(after, x, {}) == Chain(before, x, {})
    decreases Height(before, x)
  {
    if x != t {
      CoversUp(before, x, t);
      ChainUp(before, x);
      if ParentOf(before, x).Some? {
        EndsUnlessBelow(before, after, t, ParentOf(before, x).value);
        EndsWithParent(after, x);
      }
    }
  }

  // ---- Conservation, whatever the new parent ----

  /** If the links of t still end, so do all others. */
  lemma {:induction false} AllEndIfMovedDoes(before: Accounts, after: Accounts, t: string, x: string)
    requires AllEnd(before) && after.Keys == before.Keys && Ends(after, t) && x in before
    requires forall y :: y in before && y != t ==> ParentOf(after, y) == ParentOf(before, y)
    ensures Ends(after, x)
    decreases Height(before, x)
  {
    if x != t && ParentOf(before, x).Some? {
      CoversUp(before, x, t);
      AllEndIfMovedDoes(before, after, t, ParentOf(before, x).value);
      EndsWithParent(after, x);
    }
  }

  /** What the rows of the account and of those below it weigh for a. */
  function ChargedBelow(accounts: Accounts, ledger: seq<Row>, t: string, a: string, q: string): int {
    if ledger == [] then 0 else
    var last := ledger[|ledger| - 1];
    ChargedBelow(accounts, ledger[..|ledger| - 1], t, a, q) +
    if Covers(accounts, last.tenant, t) then Weight(accounts, last, a, q) else 0
  }

  lemma {:induction false} CycleDropsBelow(
    before: Accounts, after: Accounts, t: string, ledger: seq<Row>, a: string, q: string)
    requires ClosesCycle(before, after, t) && t in before && forall r :: r in ledger ==> r.tenant in before
    ensures Charged(after, ledger, a, q) == Charged(before, ledger, a, q) - ChargedBelow(before, ledger, t, a, q)
    decreases |ledger|
  {
    if ledger != [] {
      var init, last := ledger[..|ledger| - 1], ledger[|ledger| - 1];
      assert last in ledger;
      CycleDropsBelow(before, after, t, init, a, q);
      EndsUnlessBelow(before, after, t, last.tenant);
      CoversUp(before, t, t);
    }
  }

  lemma CycleConservesExactly(db: Db, d: Db, t: string)
    requires Inv(db) && t in db.accounts && ClosesCycle(db.accounts, d.accounts, t) && d.ledger == db.ledger
    requires forall a, q :: Spent(d, a, q) == Spent(db, a, q)
    ensures Conserved(d) <==> forall a, q :: ChargedBelow(db.accounts, db.ledger, t, a, q) == 0
  {
    forall r | r in db.ledger ensures r.tenant in db.accounts {
      assert GoodRow(db, r);
    }
    forall a, q
      ensures Spent(d, a, q) == Charged(d.accounts, d.ledger, a, q) <==>
              ChargedBelow(db.accounts, db.ledger, t, a, q) == 0
    {
      CycleDropsBelow(db.accounts, d.accounts, t, db.ledger, a, q);
      assert Spent(db, a, q) == Charged(db.accounts, db.ledger, a, q);
    }
    if Conserved(d) {
      forall a, q ensures ChargedBelow(db.accounts, db.ledger, t, a, q) == 0 {
        assert Spent(d, a, q) == Charged(d.accounts, d.ledger, a, q);
      }
    } else {
      var a, q :| Spent(d, a, q) != Charged(d.accounts, d.ledger, a, q);
      assert ChargedBelow(db.accounts, db.ledger, t, a, q) != 0;
    }
  }

  /**
   Giving an existing account any parent that create_account accepts: where its links still end, spending stays the sum
   over every subtree as far as the move is free; where they close a cycle, as far as the rows at and below the account
   come to nothing for everybody.
   */
  lemma NewParentConservesExactly(db: Db, t: string, parent: Option<string>, limit: int, daily: bool, now: Clock)
    requires Inv(db) && t in db.accounts && AllEnd(db.accounts)
    requires Created(db, t, parent, limit, daily, now).Ok?
    ensures var d := Created(db, t, parent, limit, daily, now).value;
            Conserved(d) <==>
              if Ends(d.accounts, t) then forall a, q :: MoveIsFree(db.accounts, d.accounts, t, db.ledger, a, q)
              else forall a, q :: ChargedBelow(db.accounts, db.ledger, t, a, q) == 0
  {
    var d := Created(db, t, parent, limit, daily, now).value;
    assert d.accounts.Keys == db.accounts.Keys;
    if Ends(d.accounts, t) {
      forall x | x in d.accounts ensures Ends(d.accounts, x) {
        AllEndIfMovedDoes(db.accounts, d.accounts, t, x);
      }
      forall x | x in d.accounts && ParentOf(d.accounts, x).Some?
        ensures ParentOf(d.accounts, x).value in d.accounts
      {
        assert x != t ==> ParentOf(d.accounts, x) == ParentOf(db.accounts, x);
      }
      MovingAccountConservesExactly(db, t, parent, limit, daily, now);
    } else {
      CreatedClosesCycle(db, t, parent, limit, daily, now);
      CycleConservesExactly(db, d, t);
    }
  }

  lemma CreatedClosesCycle(db: Db, t: string, parent: Option<string>, limit: int, daily: bool, now: Clock)
    requires AllEnd(db.accounts) && Created(db, t, parent, limit, daily, now).Ok?
    requires !Ends(Created(db, t, parent, limit, daily, now).value.accounts, t)
    ensures ClosesCycle(db.accounts, Created(db, t, parent, limit, daily, now).value.accounts, t)
  {
  }

  // ---- Walks that do not end ----

  lemma {:induction false} ShiftNeedsEnd(db: Db, t: string, amount: int, period: string, visited: set<string>)
    requires Shift(db, t, amount, period, visited).Ok?
    ensures Chain(db.accounts, t, visited).Some?
    decreases db.accounts.Keys - visited
  {
    if t in db.accounts && ParentOf(db.accounts, t).Some? {
      var shifted := if (t, period) in db.balances
                     then db.(balances := db.balances[(t, period) := db.balances[(t, period)] + amount]) else db;
      ShiftNeedsEnd(shifted, ParentOf(db.accounts, t).value, amount, period, visited + {t});
    }
  }

  /** The ledger has the client's key of every joined key. */
  ghost predicate JoinedKeysKnown(ledger: seq<Row>) {
    forall key, x, period :: NoBar(x) && NoBar(period) && HasKey(ledger, AncestorKey(key, x, period)) ==>
      HasKey(ledger, Client(key))
  }

  lemma InvKnowsKeys(db: Db)
    requires Inv(db)
    ensures JoinedKeysKnown(db.ledger)
  {
    forall key, x, period | NoBar(x) && NoBar(period) && HasKey(db.ledger, AncestorKey(key, x, period))
      ensures HasKey(db.ledger, Client(key))
    {
      var r :| r in db.ledger && r.key == AncestorKey(key, x, period);
      assert GoodRow(db, r) && Owned(db.ledger, r);
      var d :| d in db.ledger && Owns(d, r);
      assert GoodRow(db, d);
      AncestorKeyInjective(key, x, period, d.key.key, r.tenant, d.period);
    }
  }

  /** A reserve or a finalize in a period whose name has no bar. */
  predicate Later(op: Op) {
    match op
    case OpenAccount(_, _, _, _, _) => false
    case Reserve(_, _, _, _, now) => '|' !in now.day && '|' !in now.month
    case Finalize(_, _, _, _) => true
  }

  /** A new joined key is not taken yet, so a walk with it succeeds only where the links end. */
  lemma NewKeyUncharged(db: Db, key: string, period: string)
    requires BarFree(db.accounts) && JoinedKeysKnown(db.ledger) && NoBar(period) && !HasKey(db.ledger, Client(key))
    ensures Uncharged(db, key, period, {})
  {
  }

  lemma ReserveKnowsKeys(db: Db, t: string, amount: int, run: string, key: string, now: Clock)
    requires BarFree(db.accounts) && JoinedKeysKnown(db.ledger) && NoBar(now.day) && NoBar(now.month)
    requires Debited(db, t, amount, run, key, now).Ok?
    ensures var d := Debited(db, t, amount, run, key, now).value;
            d.accounts == db.accounts && JoinedKeysKnown(d.ledger)
  {
    if t in db.accounts && !HasKey(db.ledger, Client(key)) {
      var period := PeriodOf(db.accounts[t].daily, now);
      NewKeyUncharged(db, key, period);
      WalkChargesChain(db, t, amount, period, key, {});
      ChainMembers(db.accounts, t, {});
      var rows := AncestorRows(Chain(db.accounts, t, {}).value, amount, period, key);
      RowsKnowKeys(db.ledger, rows, EstimateRow(t, amount, run, key, period), key, period);
    }
  }

  lemma RowsKnowKeys(ledger: seq<Row>, rows: seq<Row>, own: Row, key: string, period: string)
    requires JoinedKeysKnown(ledger) && own.key == Client(key) && NoBar(period)
    requires forall r :: r in rows ==> NoBar(r.tenant) && r.key == AncestorKey(key, r.tenant, period)
    ensures JoinedKeysKnown(ledger + rows + [own])
  {
    var after := ledger + rows + [own];
    assert own in after && forall r :: r in ledger ==> r in after;
    forall key', x, period' | NoBar(x) && NoBar(period') && HasKey(after, AncestorKey(key', x, period'))
      ensures HasKey(after, Client(key'))
    {
      var r :| r in after && r.key == AncestorKey(key', x, period');
      if r in rows {
        AncestorKeyInjective(key, r.tenant, period, key', x, period');
      } else {
        assert r in ledger && HasKey(ledger, AncestorKey(key', x, period'));
      }
    }
  }

  lemma {:induction false} ShiftKeepsRest(db: Db, t: string, amount: int, period: string, visited: set<string>)
    requires Shift(db, t, amount, period, visited).Ok?
    ensures var d := Shift(db, t, amount, period, visited).value; d.accounts == db.accounts && d.ledger == db.ledger
    decreases db.accounts.Keys - visited
  {
    if ParentOf(db.accounts, t).Some? {
      var shifted := if (t, period) in db.balances
                     then db.(balances := db.balances[(t, period) := db.balances[(t, period)] + amount]) else db;
      ShiftKeepsRest(shifted, ParentOf(db.accounts, t).value, amount, period, visited + {t});
    }
  }

  /** A finalize adds its credit row, and then walks. */
  function Credited(db: Db, e: Row, t: string, run: string, actual: int, key: string): Db {
    var row := Row(t, CreditCorrection, -(actual - e.amount), Some(run), Client(key), e.period);
    db.(ledger := db.ledger + [row])
  }

  lemma FinalizeKnowsKeys(db: Db, t: string, run: string, actual: int, key: string)
    requires JoinedKeysKnown(db.ledger) && Adjusted(db, t, run, actual, key).Ok?
    ensures var d := Adjusted(db, t, run, actual, key).value;
            d.accounts == db.accounts && JoinedKeysKnown(d.ledger)
  {
    if FirstEstimate(db.ledger, t, run).Some? {
      var e := FirstEstimate(db.ledger, t, run).value;
      var credited := Credited(db, e, t, run, actual, key);
      ShiftKeepsRest(credited, t, actual - e.amount, e.period, {});
      RowsKnowKeys(db.ledger, [], credited.ledger[|db.ledger|], key, "");
      assert db.ledger + [] == db.ledger;
    }
  }

  lemma {:induction false} LaterKnowsKeys(db: Db, ops: seq<Op>)
    requires BarFree(db.accounts) && JoinedKeysKnown(db.ledger) && forall op :: op in ops ==> Later(op)
    ensures Applied(db, ops).accounts == db.accounts && JoinedKeysKnown(Applied(db, ops).ledger)
    decreases |ops|
  {
    if ops != [] {
      var init, op := ops[..|ops| - 1], ops[|ops| - 1];
      assert op in ops;
      LaterKnowsKeys(db, init);
      var d := Applied(db, init);
      if Attempt(d, op).Ok? {
        match op {
          case Reserve(t, amount, run, key, now) => ReserveKnowsKeys(d, t, amount, run, key, now);
          case Finalize(t, run, actual, key) => FinalizeKnowsKeys(d, t, run, actual, key);
        }
      }
    }
  }

  /** The transaction has something to do: a reserve with a new key, or a finalize with an estimate to correct. */
  predicate HasEffect(db: Db, op: Op) {
    match op
    case OpenAccount(_, _, _, _, _) => true
    case Reserve(t, _, _, key, _) => t in db.accounts && !HasKey(db.ledger, Client(key))
    case Finalize(t, run, _, _) => FirstEstimate(db.ledger, t, run).Some?
  }

  lemma EndlessReserveFails(db: Db, t: string, amount: int, run: string, key: string, now: Clock)
    requires BarFree(db.accounts) && JoinedKeysKnown(db.ledger) && NoBar(now.day) && NoBar(now.month)
    requires !Ends(db.accounts, t)
    ensures var r := Debited(db, t, amount, run, key, now);
            if HasKey(db.ledger, Client(key)) then r == Ok(db) else r.Err?
  {
    if !HasKey(db.ledger, Client(key)) {
      var period := PeriodOf(db.accounts[t].daily, now);
      NewKeyUncharged(db, key, period);
      WalkChargesChain(db, t, amount, period, key, {});
    }
  }

  lemma EndlessFinalizeFails(db: Db, t: string, run: string, actual: int, key: string)
    requires !Ends(db.accounts, t)
    ensures var r := Adjusted(db, t, run, actual, key);
            if FirstEstimate(db.ledger, t, run).None? then r == Ok(db) else r.Err?
  {
    if FirstEstimate(db.ledger, t, run).Some? && !HasKey(db.ledger, Client(key)) {
      var e := FirstEstimate(db.ledger, t, run).value;
      var credited := Credited(db, e, t, run, actual, key);
      if Shift(credited, t, actual - e.amount, e.period, {}).Ok? {
        ShiftNeedsEnd(credited, t, actual - e.amount, e.period, {});
      }
    }
  }

  lemma EndlessFails(db: Db, op: Op)
    requires BarFree(db.accounts) && JoinedKeysKnown(db.ledger) && Later(op) && !Ends(db.accounts, op.t)
    ensures Attempt(db, op).Err? <==> HasEffect(db, op)
    ensures Apply(db, op) == db
  {
    match op {
      case Reserve(t, amount, run, key, now) => EndlessReserveFails(db, t, amount, run, key, now);
      case Finalize(t, run, actual, key) => EndlessFinalizeFails(db, t, run, actual, key);
    }
  }

  /**
   create_account accepts a parent that closes a cycle. From then on, after any reserves and finalizes: whatever is to
   be reserved or finalized for the account or below it fails, and none of it changes a table; the chains of all other
   accounts are as they were before.
   */
  lemma CycleFreezesSubtree(db: Db, t: string, parent: Option<string>, limit: int, daily: bool, now: Clock,
                            ops: seq<Op>, op: Op)
    requires Inv(db) && AllEnd(db.accounts) && NoBar(t) && Created(db, t, parent, limit, daily, now).Ok?
    requires !Ends(Created(db, t, parent, limit, daily, now).value.accounts, t)
    requires (forall o :: o in ops ==> Later(o)) && Later(op) && (op.t == t || op.t in db.accounts)
    ensures var d := Applied(Created(db, t, parent, limit, daily, now).value, ops);
            if op.t == t || Covers(db.accounts, op.t, t)
            then (Attempt(d, op).Err? <==> HasEffect(d, op)) && Apply(d, op) == d
            else Chain(d.accounts, op.t, {}) == Chain(db.accounts, op.t, {})
  {
    var made := Created(db, t, parent, limit, daily, now).value;
    InvKnowsKeys(db);
    assert made.ledger == db.ledger && BarFree(made.accounts);
    CreatedClosesCycle(db, t, parent, limit, daily, now);
    EndsUnlessBelow(db.accounts, made.accounts, t, op.t);
    LaterKnowsKeys(made, ops);
    if !Ends(made.accounts, op.t) {
      EndlessFails(Applied(made, ops), op);
    }
  }

  /** An account made its own parent is accepted, and cannot reserve any more. */
  lemma OwnParentFreezes(now: Clock)
    ensures var made := Created(Db(map["org" := Account(None, 100, false)], [], map[]),
                                "org", Some("org"), 100, false, now);
            made.Ok? && Debited(made.value, "org", 5, "r", "k", now) == Err(CyclicHierarchy("org"))
  {
    var made := Created(Db(map["org" := Account(None, 100, false)], [], map[]),
                        "org", Some("org"), 100, false, now).value;
    var charged := Charge(made, "org", 5, now.month, "k");
    assert Walk(charged, "org", 5, now.month, "k", {} + {"org"}) == Err(CyclicHierarchy("org"));
  }
}
