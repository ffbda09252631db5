/** Three runs of budget transactions on which a promise fails (src/orchestra/cost/persistent_budget.py). */
module BudgetExamples {
  import opened Wrappers
  import opened BudgetLedger
  import opened BudgetWalks
  import opened BudgetInvariants
  import opened BudgetRuns
  import opened BudgetResults

  lemma OneCharge(db: Db, t: string, amount: int, run: string, key: string, now: Clock)
    requires t in db.accounts && ParentOf(db.accounts, t).None? && !HasKey(db.ledger, Client(key))
    requires var period := PeriodOf(db.accounts[t].daily, now);
             !Taken(db, t, period, key) && Spent(db, t, period) + amount <= db.accounts[t].limit
    ensures var period := PeriodOf(db.accounts[t].daily, now);
            Debited(db, t, amount, run, key, now) ==
            Ok(Db(db.accounts, db.ledger + [AncestorRow(t, amount, period, key)] +
                               [EstimateRow(t, amount, run, key, period)],
                  db.balances[(t, period) := Spent(db, t, period) + amount]))
  {
  }

  // ---- An account is moved below another ----

  const TWO_ROOTS: Accounts := map["org" := FLAT, "team" := FLAT]

  /** What "team" spent before it was put below "org" is missing from what "org" has spent. */
  lemma MovedSpendingIsMissing(now: Clock)
    ensures var spent := Debited(Db(TWO_ROOTS, [], map[]), "team", 5, "r", "k", now);
            spent.Ok? &&
            var moved := Created(spent.value, "team", Some("org"), 100, false, now);
            && moved.Ok? && Covers(moved.value.accounts, "team", "org")
            && Spent(moved.value, "org", now.month) == 0
            && Charged(moved.value.accounts, moved.value.ledger, "org", now.month) == 5
            && !Conserved(moved.value)
  {
    OneCharge(Db(TWO_ROOTS, [], map[]), "team", 5, "r", "k", now);
    var spent := Debited(Db(TWO_ROOTS, [], map[]), "team", 5, "r", "k", now).value;
    var moved := Created(spent, "team", Some("org"), 100, false, now).value;
    assert ParentOf(moved.accounts, "team") == Some("org");
    assert Chain(moved.accounts, "org", {} + {"team"}) == Some(["org"]);
    assert Chain(moved.accounts, "team", {}) == Some(["team"] + ["org"]) && ["team"] + ["org"] == ["team", "org"];
    var rows := [AncestorRow("team", 5, now.month, "k"), EstimateRow("team", 5, "r", "k", now.month)];
    assert moved.ledger == rows && rows[..1] == [rows[0]] && rows[..1][..0] == [];
    assert Charged(moved.accounts, rows[..1], "org", now.month) == 0;
  }

  // ---- A run reserves twice ----

  const ONE_ROOT: Accounts := map["org" := FLAT]

  function TwoReserves(now: Clock): Db {
    Db(ONE_ROOT,
       [AncestorRow("org", 5, now.month, "k1"), EstimateRow("org", 5, "r", "k1", now.month),
        AncestorRow("org", 7, now.month, "k2"), EstimateRow("org", 7, "r", "k2", now.month)],
       map[("org", now.month) := 12])
  }

  lemma ReservesTwice(now: Clock)
    ensures var first := Debited(Db(ONE_ROOT, [], map[]), "org", 5, "r", "k1", now);
            first.Ok? && Debited(first.value, "org", 7, "r", "k2", now) == Ok(TwoReserves(now))
  {
    OneCharge(Db(ONE_ROOT, [], map[]), "org", 5, "r", "k1", now);
    var first := Debited(Db(ONE_ROOT, [], map[]), "org", 5, "r", "k1", now).value;
    assert !Taken(first, "org", now.month, "k2") by {
      var one, two := "k1" + "|" + "org" + "|" + now.month, "k2" + "|" + "org" + "|" + now.month;
      assert one[1] == '1' && two[1] == '2';
      assert forall r :: r in first.ledger ==> r.key == Hashed(one) || r.key == Client("k1");
    }
    OneCharge(first, "org", 7, "r", "k2", now);
    var d := Debited(first, "org", 7, "r", "k2", now).value;
    assert d.ledger == TwoReserves(now).ledger && d.balances == TwoReserves(now).balances;
  }

  lemma SecondOfTwo(a: Row, b: Row, t: string, run: string)
    requires !OfRun(a, t, run) && OfRun(b, t, run)
    ensures Select([a, b], t, run, true) == [b]
  {
    assert [a, b][..1] == [a] && [a][..0] == [];
    assert Select([a], t, run, true) == [];
  }

  lemma NetOfTwo(a: Row, b: Row, q: string)
    requires a.period == q && b.period == q
    ensures Net([a, b], q) == Signed(a) + Signed(b)
  {
    assert [a, b][..1] == [a] && [a][..0] == [];
    assert Net([a], q) == Signed(a);
  }

  lemma RowsOfTheRun(now: Clock)
    ensures Net(Select(TwoReserves(now).ledger, "org", "r", true), now.month) == 12
  {
    var rows := TwoReserves(now).ledger;
    assert rows == [rows[0], rows[1]] + [rows[2], rows[3]];
    SelectAppend([rows[0], rows[1]], [rows[2], rows[3]], "org", "r");
    SecondOfTwo(rows[0], rows[1], "org", "r");
    SecondOfTwo(rows[2], rows[3], "org", "r");
    assert [rows[1]] + [rows[3]] == [rows[1], rows[3]];
    NetOfTwo(rows[1], rows[3], now.month);
  }

  /** The run cost 6 in the end, and 13 is what it leaves behind: the second estimate stays. */
  lemma SecondEstimateStays(now: Clock)
    ensures var d := Adjusted(TwoReserves(now), "org", "r", 6, "k3");
            d.Ok? && Spent(d.value, "org", now.month) == 13 && !Settled(d.value.ledger, "org", "r", 6, now.month)
  {
    var db := TwoReserves(now);
    var estimate := EstimateRow("org", 5, "r", "k1", now.month);
    assert db.ledger[1..][0] == estimate;
    assert FirstEstimate(db.ledger, "org", "r") == Some(estimate);
    var d := Adjusted(db, "org", "r", 6, "k3").value;
    assert d.ledger == db.ledger + [CreditRow(estimate, "r", 6, "k3")];
    RowsOfTheRun(now);
    assert !Settled(db.ledger, "org", "r", 5, now.month);
    CreditSettles(db.ledger, "org", "r", 6, "k3", estimate);
  }

  // ---- A monthly account above a daily one ----

  const MONTHLY_ABOVE_DAILY: Accounts := map["org" := FLAT, "job" := Account(Some("org"), 100, true)]

  /** The monthly account is charged for the day, and its remaining budget does not see it. */
  lemma MonthlyParentDoesNotSee(now: Clock)
    requires now.day != now.month && NoBar(now.day) && NoBar(now.month)
    ensures var d := Debited(Db(MONTHLY_ABOVE_DAILY, [], map[]), "job", 5, "r", "k", now);
            && d.Ok? && Covers(MONTHLY_ABOVE_DAILY, "job", "org")
            && Spent(d.value, "org", now.day) == 5
            && Spent(d.value, "org", now.month) == 0 && Remaining(d.value, "org", now) == 100
  {
    var db := Db(MONTHLY_ABOVE_DAILY, [], map[]);
    assert ParentOf(db.accounts, "job") == Some("org") && Chain(db.accounts, "org", {} + {"job"}) == Some(["org"]);
    assert Chain(db.accounts, "job", {}) == Some(["job"] + ["org"]) && ["job"] + ["org"] == ["job", "org"];
    WalkChargesChain(db, "job", 5, now.day, "k", {});
  }
}
