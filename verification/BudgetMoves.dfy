/** Giving an account another parent: when the ledger stays conserved (src/orchestra/cost/persistent_budget.py). */
module BudgetMoves {
  import opened Wrappers
  import opened BudgetLedger
  import opened BudgetWalks
  import opened BudgetInvariants

  // ---- Chains that end ----

  /** No parent links run into a cycle or out of the table. */
  ghost predicate AllEnd(accounts: Accounts) {
    && Closed(accounts)
    && (forall x {:trigger Chain(accounts, x, {})} :: x in accounts ==> Chain(accounts, x, {}).Some?)
  }

  lemma {:induction false} FewerVisited(accounts: Accounts, x: string, fewer: set<string>, visited: set<string>)
    requires fewer <= visited && Chain(accounts, x, visited).Some?
    ensures Chain(accounts, x, fewer) == Chain(accounts, x, visited)
    decreases accounts.Keys - visited
  {
    if x in accounts && ParentOf(accounts, x).Some? {
      FewerVisited(accounts, ParentOf(accounts, x).value, fewer + {x}, visited + {x});
    }
  }

  function Height(accounts: Accounts, x: string): nat {
    if Chain(accounts, x, {}).Some? then |Chain(accounts, x, {}).value| else 0
  }

  /** The chain of an account is the account and the chain of its parent. */
  lemma ChainUp(accounts: Accounts, x: string)
    requires AllEnd(accounts) && x in accounts
    ensures var parent := ParentOf(accounts, x);
            && Chain(accounts, x, {}).Some?
            && (parent.None? ==> Chain(accounts, x, {}).value == [x])
            && (parent.Some? ==>
                  && parent.value in accounts && Chain(accounts, parent.value, {}).Some?
                  && Chain(accounts, x, {}).value == [x] + Chain(accounts, parent.value, {}).value)
  {
    var parent := ParentOf(accounts, x);
    assert Chain(accounts, x, {}).Some?;
    if parent.Some? {
      FewerVisited(accounts, parent.value, {}, {} + {x});
    }
  }

  /** An account covers itself, and what its parent covers. */
  lemma CoversUp(accounts: Accounts, x: string, a: string)
    requires AllEnd(accounts) && x in accounts
    ensures var parent := ParentOf(accounts, x);
            && (Covers(accounts, x, a) <==> a == x || (parent.Some? && Covers(accounts, parent.value, a)))
            && (parent.Some? ==> parent.value in accounts && Height(accounts, parent.value) < Height(accounts, x))
  {
    ChainUp(accounts, x);
  }

  lemma {:induction false} CoveredIsShorter(accounts: Accounts, x: string, a: string)
    requires AllEnd(accounts) && x in accounts && Covers(accounts, x, a) && a != x
    ensures Height(accounts, a) < Height(accounts, x)
    decreases Height(accounts, x)
  {
    CoversUp(accounts, x, a);
    var p := ParentOf(accounts, x).value;
    if a != p {
      CoveredIsShorter(accounts, p, a);
    }
  }

  lemma NoneCoverEachOther(accounts: Accounts, x: string, a: string)
    requires AllEnd(accounts) && x in accounts && a in accounts
    requires Covers(accounts, x, a) && Covers(accounts, a, x)
    ensures x == a
  {
    if x != a {
      CoveredIsShorter(accounts, x, a);
      CoveredIsShorter(accounts, a, x);
    }
  }

  lemma CoveredExists(accounts: Accounts, x: string, a: string)
    requires Covers(accounts, x, a)
    ensures a in accounts
  {
    ChainMembers(accounts, x, {});
  }

  // ---- The same accounts with another parent for t ----

  ghost predicate Moved(before: Accounts, after: Accounts, t: string) {
    && AllEnd(before) && AllEnd(after) && before.Keys == after.Keys && t in before
    && forall x :: x in before && x != t ==> ParentOf(after, x) == ParentOf(before, x)
  }

  /** Between x and t, where t is an ancestor of x. */
  predicate Between(accounts: Accounts, x: string, a: string, t: string) {
    Covers(accounts, x, a) && Covers(accounts, a, t)
  }

  /** What x covers after the move: as before unless it is below t; then what lies between, and what t covers now. */
  lemma {:induction false} CoversAfterMove(before: Accounts, after: Accounts, t: string, x: string, a: string)
    requires Moved(before, after, t) && x in before
    ensures Covers(after, x, a) <==>
            if Covers(before, x, t) then Between(before, x, a, t) || Covers(after, t, a) else Covers(before, x, a)
    decreases Height(before, x)
  {
    CoversUp(before, x, a);
    CoversUp(after, x, a);
    CoversUp(before, x, t);
    if x == t {
      CoversUp(after, t, a);
      if Between(before, t, a, t) {
        CoveredExists(before, t, a);
        NoneCoverEachOther(before, t, a);
      }
    } else if ParentOf(before, x).Some? {
      CoversAfterMove(before, after, t, ParentOf(before, x).value, a);
    }
  }

  lemma Unmoved(accounts: Accounts, t: string)
    requires AllEnd(accounts) && t in accounts
    ensures Moved(accounts, accounts, t)
  {
  }

  /** The weight of a row for a changes by its weight for t where t gains or loses a as an ancestor, and else not. */
  lemma WeightMoves(before: Accounts, after: Accounts, t: string, r: Row, a: string, q: string)
    requires Moved(before, after, t) && r.tenant in before
    ensures Weight(after, r, a, q) ==
            Weight(before, r, a, q) + (if Covers(after, t, a) then Weight(before, r, t, q) else 0)
                                    - (if Covers(before, t, a) then Weight(before, r, t, q) else 0)
  {
    CoversAfterMove(before, after, t, r.tenant, a);
    Unmoved(before, t);
    CoversAfterMove(before, before, t, r.tenant, a);
    if Covers(before, r.tenant, t) && Between(before, r.tenant, a, t) {
      CoveredExists(before, r.tenant, a);
      CoversUp(before, t, t);
      CoversUp(after, t, t);
      if Covers(before, t, a) {
        NoneCoverEachOther(before, t, a);
      }
      if Covers(after, t, a) {
        CoversAfterMove(before, after, t, a, t);
        NoneCoverEachOther(after, t, a);
      }
    }
  }

  lemma {:induction false} ChargedMoves(
    before: Accounts, after: Accounts, t: string, ledger: seq<Row>, a: string, q: string)
    requires Moved(before, after, t) && forall r :: r in ledger ==> r.tenant in before
    ensures var moved := Charged(before, ledger, t, q);
            Charged(after, ledger, a, q) ==
            Charged(before, ledger, a, q) + (if Covers(after, t, a) then moved else 0)
                                          - (if Covers(before, t, a) then moved else 0)
    decreases |ledger|
  {
    if ledger != [] {
      var init, last := ledger[..|ledger| - 1], ledger[|ledger| - 1];
      assert last in ledger;
      ChargedMoves(before, after, t, init, a, q);
      WeightMoves(before, after, t, last, a, q);
    }
  }

  /** t keeps a as an ancestor or not, or its subtree has come to nothing in the period. */
  predicate MoveIsFree(before: Accounts, after: Accounts, t: string, ledger: seq<Row>, a: string, q: string) {
    (Covers(after, t, a) <==> Covers(before, t, a)) || Charged(before, ledger, t, q) == 0
  }

  /**
   Giving an existing account another parent moves no balance. Where no parent links form a cycle, spending is still
   the sum over every subtree if and only if the account keeps its ancestors, or what its own subtree was charged
   comes to nothing in every period.
   */
  lemma MovingAccountConservesExactly(db: Db, t: string, parent: Option<string>, limit: int, daily: bool, now: Clock)
    requires Inv(db) && t in db.accounts && AllEnd(db.accounts)
    requires Created(db, t, parent, limit, daily, now).Ok?
    requires AllEnd(Created(db, t, parent, limit, daily, now).value.accounts)
    ensures var d := Created(db, t, parent, limit, daily, now).value;
            Conserved(d) <==> forall a, q :: MoveIsFree(db.accounts, d.accounts, t, db.ledger, a, q)
  {
    var d := Created(db, t, parent, limit, daily, now).value;
    assert forall x :: x in db.accounts && x != t ==> ParentOf(d.accounts, x) == ParentOf(db.accounts, x);
    assert d.accounts.Keys == db.accounts.Keys;
    forall r | r in db.ledger ensures r.tenant in db.accounts {
      assert GoodRow(db, r);
    }
    forall a, q
      ensures Spent(d, a, q) == Charged(d.accounts, d.ledger, a, q) <==>
              MoveIsFree(db.accounts, d.accounts, t, db.ledger, a, q)
    {
      assert Spent(d, a, q) == Spent(db, a, q);
      ChargedMoves(db.accounts, d.accounts, t, db.ledger, a, q);
    }
    if Conserved(d) {
      forall a, q ensures MoveIsFree(db.accounts, d.accounts, t, db.ledger, a, q) {
        assert Spent(d, a, q) == Charged(d.accounts, d.ledger, a, q);
      }
    }
  }
}
