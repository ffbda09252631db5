/** What every reachable state of the budget tables satisfies. */
module BudgetInvariants {
  import opened Wrappers
  import opened BudgetLedger
  import opened BudgetWalks

  // ---- The invariant ----

  /** What a row contributes to spending: an estimate adds, a credit takes back. */
  function Signed(r: Row): int {
    match r.kind
    case DebitEstimate => r.amount
    case CreditCorrection => -r.amount
    case ParentDebit => 0
  }

  function Weight(accounts: Accounts, r: Row, a: string, period: string): int {
    if r.period == period && Covers(accounts, r.tenant, a) then Signed(r) else 0
  }

  /** The sum over the whole subtree of a of its estimates minus its credits in a period. */
  function Charged(accounts: Accounts, ledger: seq<Row>, a: string, period: string): int {
    if ledger == [] then 0 else
    Charged(accounts, ledger[..|ledger| - 1], a, period) + Weight(accounts, ledger[|ledger| - 1], a, period)
  }

  ghost predicate Conserved(db: Db) {
    forall a, period :: Spent(db, a, period) == Charged(db.accounts, db.ledger, a, period)
  }

  ghost predicate GoodAccounts(accounts: Accounts) {
    BarFree(accounts) && Closed(accounts)
  }

  ghost predicate GoodRow(db: Db, r: Row) {
    && NoBar(r.period) && r.tenant in db.accounts
    && (r.kind.ParentDebit? <==> r.key.Hashed?)
    && (r.kind.DebitEstimate? ==>
          Chain(db.accounts, r.tenant, {}).Some? &&
          forall x :: Covers(db.accounts, r.tenant, x) ==> (x, r.period) in db.balances)
  }

  ghost predicate GoodRows(db: Db) {
    forall r :: r in db.ledger ==> GoodRow(db, r)
  }

  ghost predicate UniqueKeys(ledger: seq<Row>) {
    forall i, j :: 0 <= i < j < |ledger| ==> ledger[i].key != ledger[j].key
  }

  /** The ancestor rows of an estimate are one per member of its chain, for its amount, and no others. */
  ghost predicate ChargedOnce(accounts: Accounts, ledger: seq<Row>, d: Row)
    requires d.key.Client?
  {
    forall x :: x in accounts ==>
      && (HasKey(ledger, AncestorKey(d.key.key, x, d.period)) <==> Covers(accounts, d.tenant, x))
      && (forall r :: r in ledger && r.key == AncestorKey(d.key.key, x, d.period) ==>
            r == AncestorRow(x, d.amount, d.period, d.key.key))
  }

  predicate Owns(d: Row, r: Row) {
    d.kind.DebitEstimate? && d.key.Client? && r.key == AncestorKey(d.key.key, r.tenant, d.period)
  }

  /** An ancestor row belongs to an estimate that is in the ledger. */
  ghost predicate Owned(ledger: seq<Row>, r: Row) {
    exists d :: d in ledger && Owns(d, r)
  }

  ghost predicate ExactlyOnce(accounts: Accounts, ledger: seq<Row>) {
    && UniqueKeys(ledger)
    && (forall d :: d in ledger && d.kind.DebitEstimate? && d.key.Client? ==> ChargedOnce(accounts, ledger, d))
    && (forall r :: r in ledger && r.kind.ParentDebit? ==> Owned(ledger, r))
  }

  ghost predicate Inv(db: Db) {
    GoodAccounts(db.accounts) && GoodRows(db) && Conserved(db) && ExactlyOnce(db.accounts, db.ledger)
  }

  // ---- Debits ----

  /** A key no estimate has used has charged no account. */
  lemma {:induction false} FreshKeyUncharged(db: Db, key: string, period: string)
    requires Inv(db) && NoBar(period) && !HasKey(db.ledger, Client(key))
    ensures Uncharged(db, key, period, {})
  {
    forall x | x in db.accounts ensures !HasKey(db.ledger, AncestorKey(key, x, period)) {
      if r :| r in db.ledger && r.key == AncestorKey(key, x, period) {
        assert GoodRow(db, r) && Owned(db.ledger, r);
        var d :| d in db.ledger && Owns(d, r);
        assert GoodRow(db, d);
        AncestorKeyInjective(key, x, period, d.key.key, r.tenant, d.period);
      }
    }
  }

  lemma {:induction false} ChargedAppend(
    accounts: Accounts, ledger: seq<Row>, more: seq<Row>, a: string, period: string)
    ensures Charged(accounts, ledger + more, a, period) ==
            Charged(accounts, ledger, a, period) + Charged(accounts, more, a, period)
    decreases |more|
  {
    if more == [] {
      assert ledger + more == ledger;
    } else {
      assert (ledger + more)[..|ledger + more| - 1] == ledger + more[..|more| - 1];
      ChargedAppend(accounts, ledger, more[..|more| - 1], a, period);
    }
  }

  lemma {:induction false} AncestorRowsWeighNothing(accounts: Accounts, rows: seq<Row>, a: string, period: string)
    requires forall r :: r in rows ==> r.kind.ParentDebit?
    ensures Charged(accounts, rows, a, period) == 0
    decreases |rows|
  {
    if rows != [] {
      assert rows[|rows| - 1] in rows;
      AncestorRowsWeighNothing(accounts, rows[..|rows| - 1], a, period);
    }
  }

  /** The tables after a debit that goes through. */
  ghost predicate Debits(b: Db, d: Db, t: string, amount: int, run: string, key: string, period: string) {
    && Chain(b.accounts, t, {}).Some? && t in b.accounts
    && var c := Chain(b.accounts, t, {}).value;
    && d.accounts == b.accounts
    && d.ledger == b.ledger + AncestorRows(c, amount, period, key) + [EstimateRow(t, amount, run, key, period)]
    && Moves(b, d, c, amount, period)
    && (forall x :: x in c ==> (x, period) in d.balances)
  }

  function EstimateRow(t: string, amount: int, run: string, key: string, period: string): Row {
    Row(t, DebitEstimate, amount, Some(run), Client(key), period)
  }

  /**
   A debit with a new key goes through exactly when the parent links end and the tenant and all its
   ancestors stay within their limits; it then charges each of them once.
   */
  lemma DebitGoesThrough(db: Db, t: string, amount: int, run: string, key: string, now: Clock)
    requires Inv(db) && t in db.accounts && !HasKey(db.ledger, Client(key))
    requires NoBar(now.day) && NoBar(now.month)
    ensures var period := PeriodOf(db.accounts[t].daily, now);
            var r, chain := Debited(db, t, amount, run, key, now), Chain(db.accounts, t, {});
            && (r.Ok? <==> chain.Some? && WithinLimits(db, chain.value, amount, period))
            && (r.Ok? ==> Debits(db, r.value, t, amount, run, key, period))
  {
    var period := PeriodOf(db.accounts[t].daily, now);
    FreshKeyUncharged(db, key, period);
    WalkChargesChain(db, t, amount, period, key, {});
  }

  lemma DebitConserves(b: Db, d: Db, t: string, amount: int, run: string, key: string, period: string)
    requires Conserved(b) && Debits(b, d, t, amount, run, key, period)
    ensures Conserved(d)
  {
    var c := Chain(b.accounts, t, {}).value;
    var rows, estimate := AncestorRows(c, amount, period, key), EstimateRow(t, amount, run, key, period);
    forall a, q ensures Spent(d, a, q) == Charged(d.accounts, d.ledger, a, q) {
      ChargedAppend(b.accounts, b.ledger, rows, a, q);
      ChargedAppend(b.accounts, b.ledger + rows, [estimate], a, q);
      AncestorRowsWeighNothing(b.accounts, rows, a, q);
      assert Charged(b.accounts, [estimate], a, q) ==
             Charged(b.accounts, [], a, q) + Weight(b.accounts, estimate, a, q);
    }
  }

  lemma DebitKeepsRowsGood(b: Db, d: Db, t: string, amount: int, run: string, key: string, period: string)
    requires GoodAccounts(b.accounts) && GoodRows(b) && NoBar(period)
    requires Debits(b, d, t, amount, run, key, period)
    ensures GoodRows(d)
  {
    var c := Chain(b.accounts, t, {}).value;
    ChainMembers(b.accounts, t, {});
    forall r | r in d.ledger ensures GoodRow(d, r) {
      if r in b.ledger {
        assert GoodRow(b, r);
      } else if r in AncestorRows(c, amount, period, key) {
        assert r.tenant in c;
      }
    }
  }

  lemma DebitKeepsKeysUnique(b: Db, d: Db, t: string, amount: int, run: string, key: string, period: string)
    requires Inv(b) && NoBar(period) && !HasKey(b.ledger, Client(key))
    requires Debits(b, d, t, amount, run, key, period)
    ensures UniqueKeys(d.ledger)
  {
    var c := Chain(b.accounts, t, {}).value;
    ChainMembers(b.accounts, t, {});
    FreshKeyUncharged(b, key, period);
    var n, m := |b.ledger|, |c|;
    forall i, j | 0 <= i < j < |d.ledger| ensures d.ledger[i].key != d.ledger[j].key {
      if j < n {
        assert d.ledger[i] == b.ledger[i] && d.ledger[j] == b.ledger[j];
      } else if j < n + m {
        assert d.ledger[j] == AncestorRow(c[j - n], amount, period, key);
        assert c[j - n] in c;
        if i < n {
          assert d.ledger[i] == b.ledger[i] && b.ledger[i] in b.ledger;
        } else {
          assert d.ledger[i] == AncestorRow(c[i - n], amount, period, key) && c[i - n] in c;
          if d.ledger[i].key == d.ledger[j].key {
            AncestorKeyInjective(key, c[i - n], period, key, c[j - n], period);
          }
        }
      } else if i < n {
        assert d.ledger[i] == b.ledger[i] && b.ledger[i] in b.ledger;
      } else {
        assert d.ledger[i] == AncestorRow(c[i - n], amount, period, key);
      }
    }
  }

  /** An older estimate's ancestor rows are untouched by a debit under another key. */
  lemma {:induction false} OlderChargesKept(
    b: Db, d: Db, t: string, amount: int, run: string, key: string, period: string, e: Row)
    requires Inv(b) && NoBar(period) && !HasKey(b.ledger, Client(key))
    requires Debits(b, d, t, amount, run, key, period)
    requires e in b.ledger && e.kind.DebitEstimate? && e.key.Client?
    ensures ChargedOnce(d.accounts, d.ledger, e)
  {
    var c := Chain(b.accounts, t, {}).value;
    ChainMembers(b.accounts, t, {});
    assert GoodRow(b, e) && ChargedOnce(b.accounts, b.ledger, e) && e.key.key != key;
    forall x, r | x in b.accounts && r in d.ledger && r.key == AncestorKey(e.key.key, x, e.period)
      ensures r in b.ledger
    {
      if r in AncestorRows(c, amount, period, key) {
        assert r.tenant in c;
        AncestorKeyInjective(key, r.tenant, period, e.key.key, x, e.period);
      }
    }
    assert forall r :: r in b.ledger ==> r in d.ledger;
  }

  lemma {:induction false} NewChargeOnce(b: Db, d: Db, t: string, amount: int, run: string, key: string, period: string)
    requires Inv(b) && NoBar(period) && !HasKey(b.ledger, Client(key))
    requires Debits(b, d, t, amount, run, key, period)
    ensures ChargedOnce(d.accounts, d.ledger, EstimateRow(t, amount, run, key, period))
  {
    var c := Chain(b.accounts, t, {}).value;
    var rows := AncestorRows(c, amount, period, key);
    ChainMembers(b.accounts, t, {});
    FreshKeyUncharged(b, key, period);
    forall x | x in b.accounts
      ensures HasKey(d.ledger, AncestorKey(key, x, period)) <==> x in c
      ensures forall r :: r in d.ledger && r.key == AncestorKey(key, x, period) ==>
                r == AncestorRow(x, amount, period, key)
    {
      if x in c {
        var i :| 0 <= i < |c| && c[i] == x;
        assert rows[i] == AncestorRow(x, amount, period, key) && rows[i] in d.ledger;
      }
      forall r | r in d.ledger && r.key == AncestorKey(key, x, period)
        ensures x in c && r == AncestorRow(x, amount, period, key)
      {
        assert r in rows;
        assert r.tenant in c;
        AncestorKeyInjective(key, r.tenant, period, key, x, period);
      }
    }
  }

  lemma {:induction false} DebitKeepsExactlyOnce(
    b: Db, d: Db, t: string, amount: int, run: string, key: string, period: string)
    requires Inv(b) && NoBar(period) && !HasKey(b.ledger, Client(key))
    requires Debits(b, d, t, amount, run, key, period)
    ensures ExactlyOnce(d.accounts, d.ledger)
  {
    DebitKeepsKeysUnique(b, d, t, amount, run, key, period);
    forall e | e in d.ledger && e.kind.DebitEstimate? && e.key.Client? ensures ChargedOnce(d.accounts, d.ledger, e) {
      if e in b.ledger {
        OlderChargesKept(b, d, t, amount, run, key, period, e);
      } else {
        NewChargeOnce(b, d, t, amount, run, key, period);
      }
    }
    DebitKeepsOwned(b, d, t, amount, run, key, period);
  }

  lemma DebitKeepsOwned(b: Db, d: Db, t: string, amount: int, run: string, key: string, period: string)
    requires Inv(b) && Debits(b, d, t, amount, run, key, period)
    ensures forall r :: r in d.ledger && r.kind.ParentDebit? ==> Owned(d.ledger, r)
  {
    forall r | r in d.ledger && r.kind.ParentDebit? ensures Owned(d.ledger, r) {
      if r in b.ledger {
        assert Owned(b.ledger, r);
        assert forall e :: e in b.ledger ==> e in d.ledger;
      } else {
        assert EstimateRow(t, amount, run, key, period) in d.ledger;
      }
    }
  }

  lemma DebitKeepsInv(db: Db, t: string, amount: int, run: string, key: string, now: Clock)
    requires Inv(db) && NoBar(now.day) && NoBar(now.month)
    requires Debited(db, t, amount, run, key, now).Ok?
    ensures Inv(Debited(db, t, amount, run, key, now).value)
  {
    if t in db.accounts && !HasKey(db.ledger, Client(key)) {
      DebitGoesThrough(db, t, amount, run, key, now);
      var d, period := Debited(db, t, amount, run, key, now).value, PeriodOf(db.accounts[t].daily, now);
      DebitConserves(db, d, t, amount, run, key, period);
      DebitKeepsRowsGood(db, d, t, amount, run, key, period);
      DebitKeepsExactlyOnce(db, d, t, amount, run, key, period);
    }
  }
}
