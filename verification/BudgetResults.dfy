/** Reserve and finalize, replays, limits, and the two places where the hierarchy leaks. */
module BudgetResults {
  import opened Wrappers
  import opened BudgetLedger
  import opened BudgetWalks
  import opened BudgetInvariants
  import opened BudgetRuns

  // ---- One reserve, one finalize ----

  predicate OfRun(r: Row, t: string, run: string) {
    r.tenant == t && r.run == Some(run)
  }

  /** The rows of a run of a tenant, or all the other rows. */
  function Select(ledger: seq<Row>, t: string, run: string, own: bool): seq<Row> {
    if ledger == [] then [] else
    Select(ledger[..|ledger| - 1], t, run, own) +
    if OfRun(ledger[|ledger| - 1], t, run) == own then [ledger[|ledger| - 1]] else []
  }

  lemma {:induction false} SelectSplits(
    accounts: Accounts, ledger: seq<Row>, t: string, run: string, a: string, period: string)
    ensures Charged(accounts, ledger, a, period) ==
            Charged(accounts, Select(ledger, t, run, true), a, period) +
            Charged(accounts, Select(ledger, t, run, false), a, period)
    decreases |ledger|
  {
    if ledger != [] {
      var init, last := ledger[..|ledger| - 1], ledger[|ledger| - 1];
      SelectSplits(accounts, init, t, run, a, period);
      var own := OfRun(last, t, run);
      var grown := Select(ledger, t, run, own);
      assert grown[..|grown| - 1] == Select(init, t, run, own);
      assert Select(ledger, t, run, !own) == Select(init, t, run, !own) + [] == Select(init, t, run, !own);
    }
  }

  lemma {:induction false} SelectAppend(ledger: seq<Row>, more: seq<Row>, t: string, run: string)
    ensures Select(ledger + more, t, run, true) == Select(ledger, t, run, true) + Select(more, t, run, true)
    decreases |more|
  {
    if more == [] {
      assert ledger + more == ledger;
    } else {
      var init := more[..|more| - 1];
      assert (ledger + more)[..|ledger + more| - 1] == ledger + init;
      SelectAppend(ledger, init, t, run);
      assert (Select(ledger, t, run, true) + Select(init, t, run, true)) +
             (if OfRun(more[|more| - 1], t, run) then [more[|more| - 1]] else [])
          == Select(ledger, t, run, true) + Select(more, t, run, true);
    }
  }

  lemma {:induction false} SelectNone(ledger: seq<Row>, t: string, run: string)
    requires forall r :: r in ledger ==> !OfRun(r, t, run)
    ensures Select(ledger, t, run, true) == []
    decreases |ledger|
  {
    if ledger != [] {
      assert ledger[|ledger| - 1] in ledger;
      SelectNone(ledger[..|ledger| - 1], t, run);
    }
  }

  lemma {:induction false} FirstEstimateSelected(ledger: seq<Row>, t: string, run: string, e: Row)
    requires Select(ledger, t, run, true) == [e] && e.kind.DebitEstimate? && OfRun(e, t, run)
    ensures FirstEstimate(ledger, t, run) == Some(e)
    decreases |ledger|
  {
    FirstEstimateFound(ledger, t, run);
    forall r | r in ledger && IsEstimate(r, t, run) ensures r == e {
      SelectContains(ledger, t, run, r);
    }
    SelectIncluded(ledger, t, run, e);
  }

  lemma {:induction false} SelectContains(ledger: seq<Row>, t: string, run: string, r: Row)
    requires r in ledger && OfRun(r, t, run)
    ensures r in Select(ledger, t, run, true)
    decreases |ledger|
  {
    if r in ledger[..|ledger| - 1] {
      SelectContains(ledger[..|ledger| - 1], t, run, r);
    }
  }

  lemma {:induction false} SelectIncluded(ledger: seq<Row>, t: string, run: string, r: Row)
    requires r in Select(ledger, t, run, true)
    ensures r in ledger && OfRun(r, t, run)
    decreases |ledger|
  {
    if r in Select(ledger[..|ledger| - 1], t, run, true) {
      SelectIncluded(ledger[..|ledger| - 1], t, run, r);
    }
  }

  /** A transaction about another run, or another tenant. */
  predicate Elsewhere(op: Op, t: string, run: string) {
    match op
    case OpenAccount(_, _, _, _, _) => true
    case Reserve(t', _, run', _, _) => t' != t || run' != run
    case Finalize(t', run', _, _) => t' != t || run' != run
  }

  lemma ElsewhereKeepsRows(db: Db, op: Op, t: string, run: string)
    requires Inv(db) && Allowed(db, op) && Elsewhere(op, t, run)
    ensures Select(Apply(db, op).ledger, t, run, true) == Select(db.ledger, t, run, true)
  {
    var d := Apply(db, op);
    if d.ledger != db.ledger {
      var more: seq<Row>;
      match op {
        case Reserve(t', amount, run', key, now) =>
          DebitGoesThrough(db, t', amount, run', key, now);
          var period := PeriodOf(db.accounts[t'].daily, now);
          var rows := AncestorRows(Chain(db.accounts, t', {}).value, amount, period, key);
          more := rows + [EstimateRow(t', amount, run', key, period)];
          assert d.ledger == db.ledger + more;
          assert forall r :: r in more ==> r in rows || r == EstimateRow(t', amount, run', key, period);
        case Finalize(t', run', actual, key) =>
          var e := EstimateIsGood(db, t', run');
          AdjustCredits(db, t', run', actual, key, e);
          more := [CreditRow(e, run', actual, key)];
      }
      SelectNone(more, t, run);
      SelectAppend(db.ledger, more, t, run);
    }
  }

  lemma {:induction false} ElsewhereRunKeepsRows(db: Db, ops: seq<Op>, t: string, run: string)
    requires Inv(db) && AllowedRun(db, ops) && forall op :: op in ops ==> Elsewhere(op, t, run)
    ensures Select(Applied(db, ops).ledger, t, run, true) == Select(db.ledger, t, run, true)
    decreases |ops|
  {
    if ops != [] {
      var init := ops[..|ops| - 1];
      ElsewhereRunKeepsRows(db, init, t, run);
      RunKeepsInv(db, init);
      ElsewhereKeepsRows(Applied(db, init), ops[|init|], t, run);
    }
  }

  lemma ReserveAddsEstimate(db: Db, t: string, estimate: int, run: string, key: string, now: Clock)
    requires Inv(db) && t in db.accounts && !HasKey(db.ledger, Client(key)) && NoBar(now.day) && NoBar(now.month)
    requires Debited(db, t, estimate, run, key, now).Ok? && Select(db.ledger, t, run, true) == []
    ensures var period := PeriodOf(db.accounts[t].daily, now);
            Select(Debited(db, t, estimate, run, key, now).value.ledger, t, run, true) ==
            [EstimateRow(t, estimate, run, key, period)]
  {
    DebitGoesThrough(db, t, estimate, run, key, now);
    var period := PeriodOf(db.accounts[t].daily, now);
    var rows := AncestorRows(Chain(db.accounts, t, {}).value, estimate, period, key);
    var row := EstimateRow(t, estimate, run, key, period);
    SelectNone(rows, t, run);
    SelectAppend(db.ledger, rows, t, run);
    SelectAppend(db.ledger + rows, [row], t, run);
    assert [row][..0] == [] && Select([row], t, run, true) == [] + [row];
  }

  /**
   One reserve and one finalize of a run, with any allowed transactions about other runs in between,
   together move the tenant and every ancestor by exactly the actual cost, in the period of the reserve.
   */
  lemma ReserveThenFinalize(db: Db, t: string, estimate: int, run: string, key: string, now: Clock,
                            between: seq<Op>, actual: int, creditKey: string)
    requires Inv(db) && t in db.accounts && !HasKey(db.ledger, Client(key)) && NoBar(now.day) && NoBar(now.month)
    requires Debited(db, t, estimate, run, key, now).Ok? && Select(db.ledger, t, run, true) == []
    requires var reserved := Debited(db, t, estimate, run, key, now).value;
             && AllowedRun(reserved, between) && (forall op :: op in between ==> Elsewhere(op, t, run))
             && !HasKey(Applied(reserved, between).ledger, Client(creditKey))
    ensures var later := Applied(Debited(db, t, estimate, run, key, now).value, between);
            var d, period := Adjusted(later, t, run, actual, creditKey), PeriodOf(db.accounts[t].daily, now);
            && d.Ok?
            && forall a, q ::
                 Spent(d.value, a, q) == Charged(d.value.accounts, Select(d.value.ledger, t, run, false), a, q) +
                                         if q == period && Covers(d.value.accounts, t, a) then actual else 0
  {
    var reserved, period := Debited(db, t, estimate, run, key, now).value, PeriodOf(db.accounts[t].daily, now);
    var row, later := EstimateRow(t, estimate, run, key, period), Applied(reserved, between);
    DebitKeepsInv(db, t, estimate, run, key, now);
    RunKeepsInv(reserved, between);
    ReserveAddsEstimate(db, t, estimate, run, key, now);
    ElsewhereRunKeepsRows(reserved, between, t, run);
    FirstEstimateSelected(later.ledger, t, run, row);
    FinalizeSettles(later, t, run, actual, creditKey, row);
  }

  lemma FinalizeSettles(db: Db, t: string, run: string, actual: int, creditKey: string, e: Row)
    requires Inv(db) && Select(db.ledger, t, run, true) == [e] && FirstEstimate(db.ledger, t, run) == Some(e)
    requires !HasKey(db.ledger, Client(creditKey))
    ensures var d := Adjusted(db, t, run, actual, creditKey);
            d.Ok? && forall a, q ::
              Spent(d.value, a, q) == Charged(d.value.accounts, Select(d.value.ledger, t, run, false), a, q) +
                                      if q == e.period && Covers(d.value.accounts, t, a) then actual else 0
  {
    var found := EstimateIsGood(db, t, run);
    AdjustCredits(db, t, run, actual, creditKey, e);
    AdjustKeepsInv(db, t, run, actual, creditKey);
    var d, credit := Adjusted(db, t, run, actual, creditKey).value, CreditRow(e, run, actual, creditKey);
    SelectAppend(db.ledger, [credit], t, run);
    assert [credit][..0] == [] && Select([credit], t, run, true) == [] + [credit];
    forall a, q
      ensures Spent(d, a, q) == Charged(d.accounts, Select(d.ledger, t, run, false), a, q) +
                                if q == e.period && Covers(d.accounts, t, a) then actual else 0
    {
      SettledSpending(d, e, run, actual, creditKey, a, q);
    }
  }

  lemma SettledSpending(d: Db, e: Row, run: string, actual: int, creditKey: string, a: string, q: string)
    requires Conserved(d) && e.kind.DebitEstimate?
    requires Select(d.ledger, e.tenant, run, true) == [e] + [CreditRow(e, run, actual, creditKey)]
    ensures Spent(d, a, q) == Charged(d.accounts, Select(d.ledger, e.tenant, run, false), a, q) +
                              if q == e.period && Covers(d.accounts, e.tenant, a) then actual else 0
  {
    var credit := CreditRow(e, run, actual, creditKey);
    SelectSplits(d.accounts, d.ledger, e.tenant, run, a, q);
    assert ([e] + [credit])[..1] == [e] && [e][..0] == [];
    assert Charged(d.accounts, [e], a, q) == Weight(d.accounts, e, a, q);
  }

  // ---- Runs with several reserves or finalizes ----

  /** Estimates minus credits of a period. */
  function Net(rows: seq<Row>, q: string): int {
    if rows == [] then 0 else
    Net(rows[..|rows| - 1], q) + if rows[|rows| - 1].period == q then Signed(rows[|rows| - 1]) else 0
  }

  lemma {:induction false} ChargedOfOneTenant(accounts: Accounts, rows: seq<Row>, t: string, a: string, q: string)
    requires forall r :: r in rows ==> r.tenant == t
    ensures Charged(accounts, rows, a, q) == if Covers(accounts, t, a) then Net(rows, q) else 0
    decreases |rows|
  {
    if rows != [] {
      assert rows[|rows| - 1] in rows;
      ChargedOfOneTenant(accounts, rows[..|rows| - 1], t, a, q);
    }
  }

  /** The rows of the run come to the actual cost in the period of the estimate, and to nothing in any other. */
  ghost predicate Settled(ledger: seq<Row>, t: string, run: string, actual: int, period: string) {
    forall q :: Net(Select(ledger, t, run, true), q) == if q == period then actual else 0
  }

  lemma SpentSplits(db: Db, t: string, run: string, a: string, q: string)
    requires Conserved(db)
    ensures Spent(db, a, q) == Charged(db.accounts, Select(db.ledger, t, run, false), a, q) +
                               if Covers(db.accounts, t, a) then Net(Select(db.ledger, t, run, true), q) else 0
  {
    SelectSplits(db.accounts, db.ledger, t, run, a, q);
    forall r | r in Select(db.ledger, t, run, true) ensures r.tenant == t {
      SelectIncluded(db.ledger, t, run, r);
    }
    ChargedOfOneTenant(db.accounts, Select(db.ledger, t, run, true), t, a, q);
  }

  lemma CreditSettles(ledger: seq<Row>, t: string, run: string, actual: int, creditKey: string, e: Row)
    requires e.tenant == t
    ensures var after := ledger + [CreditRow(e, run, actual, creditKey)];
            Settled(after, t, run, actual, e.period) <==> Settled(ledger, t, run, e.amount, e.period)
  {
    var credit := CreditRow(e, run, actual, creditKey);
    var before, after := Select(ledger, t, run, true), Select(ledger + [credit], t, run, true);
    SelectAppend(ledger, [credit], t, run);
    assert [credit][..0] == [] && Select([credit], t, run, true) == [] + [credit];
    assert after == before + [credit] && after[..|before|] == before;
    assert forall q :: Net(after, q) == Net(before, q) + if q == e.period then actual - e.amount else 0;
  }

  /**
   A finalize corrects the first estimate of the run only. Whatever rows the run has, of several reserves or finalizes,
   it settles the run at the actual cost, for the tenant and every ancestor, if and only if the rows besides that
   estimate came to nothing before.
   */
  lemma FinalizeSettlesExactly(db: Db, t: string, run: string, actual: int, creditKey: string, e: Row)
    requires Inv(db) && FirstEstimate(db.ledger, t, run) == Some(e) && !HasKey(db.ledger, Client(creditKey))
    ensures var d := Adjusted(db, t, run, actual, creditKey);
            && d.Ok?
            && (Settled(d.value.ledger, t, run, actual, e.period) <==> Settled(db.ledger, t, run, e.amount, e.period))
            && forall a, q ::
                 Spent(d.value, a, q) == Charged(d.value.accounts, Select(d.value.ledger, t, run, false), a, q) +
                   if Covers(d.value.accounts, t, a) then Net(Select(d.value.ledger, t, run, true), q) else 0
  {
    var found := EstimateIsGood(db, t, run);
    AdjustCredits(db, t, run, actual, creditKey, e);
    AdjustKeepsInv(db, t, run, actual, creditKey);
    CreditSettles(db.ledger, t, run, actual, creditKey, e);
    var d := Adjusted(db, t, run, actual, creditKey).value;
    forall a, q
      ensures Spent(d, a, q) == Charged(d.accounts, Select(d.ledger, t, run, false), a, q) +
                                if Covers(d.accounts, t, a) then Net(Select(d.ledger, t, run, true), q) else 0
    {
      SpentSplits(d, t, run, a, q);
    }
  }

  // ---- Replays ----

  lemma {:induction false} KeysPersist(db: Db, ops: seq<Op>, key: LedgerKey)
    requires Inv(db) && AllowedRun(db, ops) && HasKey(db.ledger, key)
    ensures HasKey(Applied(db, ops).ledger, key)
    decreases |ops|
  {
    if ops != [] {
      var init, last := ops[..|ops| - 1], ops[|ops| - 1];
      KeysPersist(db, init, key);
      RunKeepsInv(db, init);
      var d := Applied(db, init);
      LedgerGrows(d, last);
      var r :| r in d.ledger && r.key == key;
      assert r in Apply(d, last).ledger;
    }
  }

  lemma LedgerGrows(db: Db, op: Op)
    requires Inv(db) && Allowed(db, op)
    ensures db.ledger <= Apply(db, op).ledger
  {
    if Attempt(db, op).Ok? {
      match op {
        case OpenAccount(_, _, _, _, _) =>
        case Reserve(t, amount, run, key, now) =>
          if t in db.accounts && !HasKey(db.ledger, Client(key)) {
            DebitGoesThrough(db, t, amount, run, key, now);
          }
        case Finalize(t, run, actual, key) =>
          if FirstEstimate(db.ledger, t, run).Some? {
            var e := EstimateIsGood(db, t, run);
            AdjustCredits(db, t, run, actual, key, e);
          }
      }
    }
  }

  /** A reserve that went through changes nothing when it is repeated, whatever ran in between. */
  lemma {:induction false} ReplayedReserveIsNoOp(db: Db, t: string, amount: int, run: string, key: string, now: Clock,
                              between: seq<Op>, replay: Op)
    requires Inv(db) && t in db.accounts && NoBar(now.day) && NoBar(now.month)
    requires Debited(db, t, amount, run, key, now).Ok?
    requires AllowedRun(Debited(db, t, amount, run, key, now).value, between)
    requires replay.Reserve? && replay.key == key
    ensures var later := Applied(Debited(db, t, amount, run, key, now).value, between);
            Apply(later, replay) == later
  {
    var d := Debited(db, t, amount, run, key, now).value;
    DebitKeepsInv(db, t, amount, run, key, now);
    if !HasKey(db.ledger, Client(key)) {
      DebitGoesThrough(db, t, amount, run, key, now);
      assert EstimateRow(t, amount, run, key, PeriodOf(db.accounts[t].daily, now)) in d.ledger;
    }
    KeysPersist(d, between, Client(key));
  }

  // ---- Limits ----

  ghost predicate LimitSafe(db: Db) {
    forall t, period :: t in db.accounts ==>
      Spent(db, t, period) <= if db.accounts[t].limit > 0 then db.accounts[t].limit else 0
  }

  lemma {:induction false} WalkKeepsLimits(
    db: Db, t: string, amount: int, period: string, childKey: string, visited: set<string>)
    requires LimitSafe(db) && Walk(db, t, amount, period, childKey, visited).Ok?
    ensures LimitSafe(Walk(db, t, amount, period, childKey, visited).value)
    decreases db.accounts.Keys - visited
  {
    if t in db.accounts && !HasKey(db.ledger, AncestorKey(childKey, t, period)) {
      var charged := Charge(db, t, amount, period, childKey);
      forall x, q | x in db.accounts
        ensures Spent(charged, x, q) <= if db.accounts[x].limit > 0 then db.accounts[x].limit else 0
      {
        assert (x, q) != (t, period) ==> Spent(charged, x, q) == Spent(db, x, q);
      }
      if ParentOf(db.accounts, t).Some? {
        WalkKeepsLimits(charged, ParentOf(db.accounts, t).value, amount, period, childKey, visited + {t});
      }
    }
  }

  /** Over any debits with accounts fixed, no tenant's spending in any period exceeds its limit. */
  lemma {:induction false} DebitsStayWithinLimits(db: Db, ops: seq<Op>)
    requires LimitSafe(db) && forall op :: op in ops ==> op.Reserve?
    ensures LimitSafe(Applied(db, ops)) && Applied(db, ops).accounts == db.accounts
    decreases |ops|
  {
    if ops != [] {
      var init, last := ops[..|ops| - 1], ops[|ops| - 1];
      assert last in ops;
      DebitsStayWithinLimits(db, init);
      var d := Applied(db, init);
      if last.t in d.accounts && !HasKey(d.ledger, Client(last.key)) && Attempt(d, last).Ok? {
        var period := PeriodOf(d.accounts[last.t].daily, last.now);
        WalkKeepsLimits(d, last.t, last.amount, period, last.key, {});
        var walked := Walk(d, last.t, last.amount, period, last.key, {}).value;
        assert forall x, q :: Spent(Apply(d, last), x, q) == Spent(walked, x, q);
      }
    }
  }

  // ---- Where the hierarchy leaks ----

  /**
   A debit with a new key, on any tables and with any ids: when the parent links end and everybody stays within limits
   it goes through, charges the chain up to the first member whose joined key is taken, and stops there. So the tenant
   and all its ancestors are charged if and only if none of their joined keys is taken.
   */
  lemma DebitChargesUntilTaken(db: Db, t: string, amount: int, run: string, key: string, now: Clock)
    requires t in db.accounts && !HasKey(db.ledger, Client(key)) && Chain(db.accounts, t, {}).Some?
    requires WithinLimits(db, Chain(db.accounts, t, {}).value, amount, PeriodOf(db.accounts[t].daily, now))
    ensures var r, period := Debited(db, t, amount, run, key, now), PeriodOf(db.accounts[t].daily, now);
            var c := Chain(db.accounts, t, {}).value;
            var charged := c[..BeforeTaken(db, c, period, key)];
            && r.Ok? && Moves(db, r.value, charged, amount, period)
            && r.value.ledger == db.ledger + AncestorRows(charged, amount, period, key) +
                                 [EstimateRow(t, amount, run, key, period)]
            && ((forall x :: x in c ==> Spent(r.value, x, period) == Spent(db, x, period) + amount) <==>
                amount == 0 || forall x :: x in c ==> !HasKey(db.ledger, AncestorKey(key, x, period)))
  {
    var period, c := PeriodOf(db.accounts[t].daily, now), Chain(db.accounts, t, {}).value;
    WalkChargesUntilTaken(db, t, amount, period, key, {});
    ChainMembers(db.accounts, t, {});
    var n, d := BeforeTaken(db, c, period, key), Debited(db, t, amount, run, key, now).value;
    assert forall a, q :: Spent(d, a, q) == Spent(Walk(db, t, amount, period, key, {}).value, a, q);
    if n == |c| {
      assert c[..n] == c;
      forall x | x in c ensures !Taken(db, x, period, key) {
        var i :| 0 <= i < |c| && c[i] == x;
      }
    } else {
      assert c[n] in c && c[n] !in c[..n] && Taken(db, c[n], period, key);
    }
  }

  /** When the joined key is already taken, the guard fires: the estimate is recorded and nobody is charged. */
  lemma TakenKeyChargesNobody(db: Db, t: string, amount: int, run: string, key: string, now: Clock)
    requires t in db.accounts && !HasKey(db.ledger, Client(key))
    requires var period := PeriodOf(db.accounts[t].daily, now);
             HasKey(db.ledger, AncestorKey(key, t, period)) && Spent(db, t, period) + amount <= db.accounts[t].limit
    ensures Debited(db, t, amount, run, key, now) ==
            Ok(db.(ledger := db.ledger + [EstimateRow(t, amount, run, key, PeriodOf(db.accounts[t].daily, now))]))
  {
  }

  /** It can be taken by another key when a tenant id contains the bar the key is joined with. */
  lemma BarInTenantCollides(now: Clock)
    ensures var accounts := map["b|c" := Account(None, 100, false), "c" := Account(None, 100, false)];
            var first := Debited(Db(accounts, [], map[]), "b|c", 5, "r1", "a", now);
            first.Ok? &&
            var second := Debited(first.value, "c", 7, "r2", "a|b", now);
            second.Ok? && Spent(second.value, "c", now.month) == 0 &&
            second.value.ledger == first.value.ledger + [EstimateRow("c", 7, "r2", "a|b", now.month)]
  {
    var accounts := map["b|c" := Account(None, 100, false), "c" := Account(None, 100, false)];
    var db := Db(accounts, [], map[]);
    var first := Debited(db, "b|c", 5, "r1", "a", now).value;
    var row := AncestorRow("b|c", 5, now.month, "a");
    assert first.ledger == [row, EstimateRow("b|c", 5, "r1", "a", now.month)];
    assert "a" + "|" + "b|c" == "a|b" + "|" + "c";
    assert row in first.ledger && row.key == AncestorKey("a|b", "c", now.month);
    TakenKeyChargesNobody(first, "c", 7, "r2", "a|b", now);
  }

  const FLAT := Account(None, 100, false)

  /** "x" below "c", and beside them a tenant whose id has a bar. */
  const BARRED: Accounts := map["b|c" := FLAT, "c" := FLAT, "x" := Account(Some("c"), 100, false)]

  lemma FirstDebit(now: Clock)
    ensures Debited(Db(BARRED, [], map[]), "b|c", 5, "r1", "a", now) ==
            Ok(Db(BARRED, [AncestorRow("b|c", 5, now.month, "a"), EstimateRow("b|c", 5, "r1", "a", now.month)],
                  map[("b|c", now.month) := 5]))
  {
    var empty := Db(BARRED, [], map[]);
    var row, charged := AncestorRow("b|c", 5, now.month, "a"), Charge(empty, "b|c", 5, now.month, "a");
    assert charged == Db(BARRED, [row], map[("b|c", now.month) := 5]);
    assert Walk(empty, "b|c", 5, now.month, "a", {}) == Ok(charged);
    assert [row] + [EstimateRow("b|c", 5, "r1", "a", now.month)] == [row, EstimateRow("b|c", 5, "r1", "a", now.month)];
  }

  lemma ChainBelowC()
    ensures Chain(BARRED, "x", {}) == Some(["x", "c"])
  {
    assert ParentOf(BARRED, "x") == Some("c") && Chain(BARRED, "c", {} + {"x"}) == Some(["c"]);
    assert Chain(BARRED, "x", {}) == Some(["x"] + ["c"]) && ["x"] + ["c"] == ["x", "c"];
  }

  /** The same collision one level up: the tenant is charged, and the ancestor whose key is taken is not. */
  lemma TakenAncestorIsNotCharged(now: Clock)
    ensures var first := Debited(Db(BARRED, [], map[]), "b|c", 5, "r1", "a", now);
            first.Ok? &&
            var second := Debited(first.value, "x", 7, "r2", "a|b", now);
            && second.Ok? && Covers(BARRED, "x", "c")
            && Spent(second.value, "x", now.month) == 7 && Spent(second.value, "c", now.month) == 0
  {
    FirstDebit(now);
    ChainBelowC();
    var first := Debited(Db(BARRED, [], map[]), "b|c", 5, "r1", "a", now).value;
    var row := first.ledger[0];
    assert row in first.ledger && row.key == AncestorKey("a|b", "c", now.month) by {
      assert "a" + "|" + "b|c" + "|" + now.month == "a|b" + "|" + "c" + "|" + now.month;
    }
    if AncestorKey("a|b", "x", now.month) == row.key {
      AncestorKeyNamesTenant("a|b", "x", "c", now.month);
    }
    DebitChargesUntilTaken(first, "x", 7, "r2", "a|b", now);
    assert !Taken(first, "x", now.month, "a|b") && Taken(first, "c", now.month, "a|b");
    assert ["x", "c"][1..] == ["c"] && BeforeTaken(first, ["x", "c"], now.month, "a|b") == 1;
  }

  /**
   The walk charges every ancestor in the period of the tenant that reserved: the balance an ancestor's
   own remaining budget is read from moves if and only if the two periods are the same string.
   */
  lemma AncestorSeesDebitIffSamePeriod(db: Db, t: string, amount: int, run: string, key: string, now: Clock, a: string)
    requires Inv(db) && t in db.accounts && !HasKey(db.ledger, Client(key)) && NoBar(now.day) && NoBar(now.month)
    requires Debited(db, t, amount, run, key, now).Ok? && amount != 0
    requires a in db.accounts && Covers(db.accounts, t, a)
    ensures var d := Debited(db, t, amount, run, key, now).value;
            var own, charged := PeriodOf(db.accounts[a].daily, now), PeriodOf(db.accounts[t].daily, now);
            && Spent(d, a, own) == Spent(db, a, own) + (if own == charged then amount else 0)
            && (Spent(d, a, own) != Spent(db, a, own) <==> own == charged)
  {
    DebitGoesThrough(db, t, amount, run, key, now);
  }
}
