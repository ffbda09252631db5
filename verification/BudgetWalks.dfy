/** What one walk up the tenant hierarchy does to the tables. */
module BudgetWalks {
  import opened Wrappers
  import opened BudgetLedger

  // ---- Joined keys ----

  ghost predicate NoBar(s: string) {
    '|' !in s
  }

  lemma LastBarSplits(a: string, b: string, c: string, d: string)
    requires NoBar(b) && NoBar(d) && a + "|" + b == c + "|" + d
    ensures a == c && b == d
  {
    var whole := a + "|" + b;
    assert whole[|a|] == '|' && whole[|c|] == '|';
    assert forall i :: |a| < i < |whole| ==> whole[i] == b[i - |a| - 1];
    assert forall i :: |c| < i < |whole| ==> whole[i] == d[i - |c| - 1];
    assert whole[..|a|] == a && whole[..|c|] == c;
    assert whole[|a| + 1..] == b && whole[|c| + 1..] == d;
  }

  /** The joined string determines its three parts when tenant and period contain no bar. */
  lemma AncestorKeyInjective(k: string, t: string, p: string, k': string, t': string, p': string)
    requires NoBar(t) && NoBar(p) && NoBar(t') && NoBar(p')
    requires AncestorKey(k, t, p) == AncestorKey(k', t', p')
    ensures k == k' && t == t' && p == p'
  {
    LastBarSplits(k + "|" + t, p, k' + "|" + t', p');
    LastBarSplits(k, t, k', t');
  }

  // ---- Ancestor chains ----

  /** The account and its ancestors, nearest first; None when the parent links run into a cycle. */
  function Chain(accounts: Accounts, t: string, visited: set<string>): Option<seq<string>>
    decreases accounts.Keys - visited
  {
    if t in visited then None
    else if t !in accounts then Some([])
    else
      match ParentOf(accounts, t)
      case None => Some([t])
      case Some(parent) =>
        match Chain(accounts, parent, visited + {t})
        case None => None
        case Some(c) => Some([t] + c)
  }

  /** a is t or an ancestor of t. */
  predicate Covers(accounts: Accounts, t: string, a: string) {
    Chain(accounts, t, {}).Some? && a in Chain(accounts, t, {}).value
  }

  ghost predicate Distinct(c: seq<string>) {
    forall i, j :: 0 <= i < j < |c| ==> c[i] != c[j]
  }

  lemma {:induction false} ChainMembers(accounts: Accounts, t: string, visited: set<string>)
    requires Chain(accounts, t, visited).Some?
    ensures var c := Chain(accounts, t, visited).value;
            Distinct(c) && forall x :: x in c ==> x in accounts && x !in visited
    decreases accounts.Keys - visited
  {
    if t in accounts && ParentOf(accounts, t).Some? {
      ChainMembers(accounts, ParentOf(accounts, t).value, visited + {t});
    }
  }

  // ---- The debit walk ----

  ghost predicate BarFree(accounts: Accounts) {
    forall t :: t in accounts ==> NoBar(t)
  }

  /** No account still to be visited has been charged for this child key. */
  ghost predicate Uncharged(db: Db, childKey: string, period: string, visited: set<string>) {
    forall x :: x in db.accounts && x !in visited ==> !HasKey(db.ledger, AncestorKey(childKey, x, period))
  }

  ghost predicate WithinLimits(db: Db, c: seq<string>, amount: int, period: string) {
    forall x :: x in c ==> x in db.accounts && Spent(db, x, period) + amount <= db.accounts[x].limit
  }

  function AncestorRows(c: seq<string>, amount: int, period: string, childKey: string): seq<Row> {
    seq(|c|, i requires 0 <= i < |c| => AncestorRow(c[i], amount, period, childKey))
  }

  /** d is b with one more row per member of c and every member's balance moved by the amount. */
  ghost predicate Charges(b: Db, d: Db, c: seq<string>, amount: int, period: string, childKey: string) {
    && d.accounts == b.accounts
    && d.ledger == b.ledger + AncestorRows(c, amount, period, childKey)
    && Moves(b, d, c, amount, period)
  }

  ghost predicate Moves(b: Db, d: Db, c: seq<string>, amount: int, period: string) {
    && (forall a, q :: Spent(d, a, q) == Spent(b, a, q) + if q == period && a in c then amount else 0)
    && (forall slot :: slot in b.balances ==> slot in d.balances)
  }

  /** For one child key and one period the joined key determines the tenant, bars or not. */
  lemma AncestorKeyNamesTenant(childKey: string, t: string, x: string, period: string)
    requires AncestorKey(childKey, t, period) == AncestorKey(childKey, x, period)
    ensures t == x
  {
    var joined := childKey + "|" + t + "|" + period;
    assert |t| == |x|;
    assert joined[|childKey| + 1..|childKey| + 1 + |t|] == t;
    assert (childKey + "|" + x + "|" + period)[|childKey| + 1..|childKey| + 1 + |x|] == x;
  }

  predicate Taken(db: Db, x: string, period: string, childKey: string) {
    HasKey(db.ledger, AncestorKey(childKey, x, period))
  }

  /** Charging t takes no key but its own. */
  lemma ChargeTakesOwnKey(db: Db, t: string, amount: int, period: string, childKey: string, x: string)
    requires x != t
    ensures Taken(Charge(db, t, amount, period, childKey), x, period, childKey) <==> Taken(db, x, period, childKey)
  {
    var charged := Charge(db, t, amount, period, childKey);
    if AncestorKey(childKey, t, period) == AncestorKey(childKey, x, period) {
      AncestorKeyNamesTenant(childKey, t, x, period);
    }
    assert forall r :: r in charged.ledger <==> r in db.ledger || r == AncestorRow(t, amount, period, childKey);
  }

  lemma ChargeKeepsUncharged(db: Db, t: string, amount: int, period: string, childKey: string, visited: set<string>)
    requires t in db.accounts && Uncharged(db, childKey, period, visited)
    ensures Uncharged(Charge(db, t, amount, period, childKey), childKey, period, visited + {t})
  {
    forall x | x in db.accounts && x !in visited + {t}
      ensures !Taken(Charge(db, t, amount, period, childKey), x, period, childKey)
    {
      ChargeTakesOwnKey(db, t, amount, period, childKey, x);
    }
  }

  /**
   With an uncharged key the guard inside the walk never fires, and the walk succeeds exactly when the
   chain ends and every member stays within its limit; it then charges every member once.
   */
  lemma {:induction false} WalkChargesChain(
    db: Db, t: string, amount: int, period: string, childKey: string, visited: set<string>)
    requires Uncharged(db, childKey, period, visited)
    ensures var r, chain := Walk(db, t, amount, period, childKey, visited), Chain(db.accounts, t, visited);
            && (r.Ok? <==> chain.Some? && WithinLimits(db, chain.value, amount, period))
            && (r.Ok? ==> Charges(db, r.value, chain.value, amount, period, childKey) &&
                          forall x :: x in chain.value ==> (x, period) in r.value.balances)
    decreases db.accounts.Keys - visited
  {
    var r, chain := Walk(db, t, amount, period, childKey, visited), Chain(db.accounts, t, visited);
    if t in visited {
    } else if t !in db.accounts {
      assert db.ledger + [] == db.ledger;
    } else {
      var charged, parent := Charge(db, t, amount, period, childKey), ParentOf(db.accounts, t);
      assert chain.Some? ==> t in chain.value;
      if Spent(db, t, period) + amount <= db.accounts[t].limit {
        ChargeMoves(db, t, amount, period, childKey);
        if parent.None? {
          assert AncestorRows([t], amount, period, childKey) == [AncestorRow(t, amount, period, childKey)];
        } else {
          ChargeKeepsUncharged(db, t, amount, period, childKey, visited);
          WalkChargesChain(charged, parent.value, amount, period, childKey, visited + {t});
          if chain.Some? {
            ChainMembers(db.accounts, parent.value, visited + {t});
            var rest := Chain(db.accounts, parent.value, visited + {t}).value;
            ChargesCompose(db, charged, r, t, rest, amount, period, childKey);
          }
        }
      }
    }
  }

  lemma ChargeMoves(db: Db, t: string, amount: int, period: string, childKey: string)
    ensures Moves(db, Charge(db, t, amount, period, childKey), [t], amount, period)
    ensures (t, period) in Charge(db, t, amount, period, childKey).balances
  {
  }

  lemma ChargesCompose(db: Db, charged: Db, r: Result<Db, BudgetError>, t: string, rest: seq<string>,
                       amount: int, period: string, childKey: string)
    requires charged == Charge(db, t, amount, period, childKey) && t in db.accounts && t !in rest
    requires Spent(db, t, period) + amount <= db.accounts[t].limit
    ensures WithinLimits(db, [t] + rest, amount, period) <==> WithinLimits(charged, rest, amount, period)
    ensures r.Ok? && Charges(charged, r.value, rest, amount, period, childKey) ==>
              Charges(db, r.value, [t] + rest, amount, period, childKey)
  {
    ChargeMoves(db, t, amount, period, childKey);
    forall x | x in rest ensures Spent(charged, x, period) == Spent(db, x, period) {
    }
    assert forall x :: x in [t] + rest <==> x == t || x in rest;
    assert AncestorRows([t] + rest, amount, period, childKey)
        == [AncestorRow(t, amount, period, childKey)] + AncestorRows(rest, amount, period, childKey);
  }

  // ---- When a key is already taken ----

  /** How many members of the chain come before the first whose key is taken. */
  function BeforeTaken(db: Db, c: seq<string>, period: string, childKey: string): (n: nat)
    ensures n <= |c|
    ensures n == |c| <==> forall i :: 0 <= i < |c| ==> !Taken(db, c[i], period, childKey)
    ensures n < |c| ==> Taken(db, c[n], period, childKey)
  {
    if c == [] || Taken(db, c[0], period, childKey) then 0 else 1 + BeforeTaken(db, c[1..], period, childKey)
  }

  lemma {:induction false} SameTaken(b: Db, d: Db, c: seq<string>, period: string, childKey: string)
    requires forall i :: 0 <= i < |c| ==> (Taken(b, c[i], period, childKey) <==> Taken(d, c[i], period, childKey))
    ensures BeforeTaken(b, c, period, childKey) == BeforeTaken(d, c, period, childKey)
  {
    if c != [] {
      SameTaken(b, d, c[1..], period, childKey);
    }
  }

  /** On any tables, a walk within limits charges the chain up to the first member whose key is taken. */
  lemma {:induction false} WalkChargesUntilTaken(
    db: Db, t: string, amount: int, period: string, childKey: string, visited: set<string>)
    requires Chain(db.accounts, t, visited).Some?
    requires WithinLimits(db, Chain(db.accounts, t, visited).value, amount, period)
    ensures var r, c := Walk(db, t, amount, period, childKey, visited), Chain(db.accounts, t, visited).value;
            r.Ok? && Charges(db, r.value, c[..BeforeTaken(db, c, period, childKey)], amount, period, childKey)
    decreases db.accounts.Keys - visited
  {
    var c := Chain(db.accounts, t, visited).value;
    if t !in db.accounts || Taken(db, t, period, childKey) {
      assert c != [] ==> c[0] == t;
      assert c[..0] == [] && db.ledger + AncestorRows([], amount, period, childKey) == db.ledger;
    } else {
      assert t in c;
      ChargeMoves(db, t, amount, period, childKey);
      var parent := ParentOf(db.accounts, t);
      if parent.None? {
        assert c[..1] == [t];
        assert AncestorRows([t], amount, period, childKey) == [AncestorRow(t, amount, period, childKey)];
      } else {
        ChargeThenRest(db, t, amount, period, childKey, visited);
      }
    }
  }

  lemma {:induction false} ChargeThenRest(
    db: Db, t: string, amount: int, period: string, childKey: string, visited: set<string>)
    requires t in db.accounts && t !in visited && ParentOf(db.accounts, t).Some?
    requires Chain(db.accounts, t, visited).Some? && !Taken(db, t, period, childKey)
    requires WithinLimits(db, Chain(db.accounts, t, visited).value, amount, period)
    requires t in Chain(db.accounts, t, visited).value
    ensures var r, c := Walk(db, t, amount, period, childKey, visited), Chain(db.accounts, t, visited).value;
            r.Ok? && Charges(db, r.value, c[..BeforeTaken(db, c, period, childKey)], amount, period, childKey)
    decreases db.accounts.Keys - visited, 0
  {
    var charged, parent := Charge(db, t, amount, period, childKey), ParentOf(db.accounts, t).value;
    var rest := Chain(db.accounts, parent, visited + {t}).value;
    ChainMembers(db.accounts, parent, visited + {t});
    var r := Walk(db, t, amount, period, childKey, visited);
    ChargesCompose(db, charged, r, t, rest, amount, period, childKey);
    WalkChargesUntilTaken(charged, parent, amount, period, childKey, visited + {t});
    ChargedUntilTaken(db, r, t, rest, amount, period, childKey);
  }

  /** Charging t, and then the rest of its chain up to the first member whose key is taken. */
  lemma ChargedUntilTaken(
    db: Db, r: Result<Db, BudgetError>, t: string, rest: seq<string>, amount: int, period: string, childKey: string)
    requires t in db.accounts && t !in rest && !Taken(db, t, period, childKey)
    requires Spent(db, t, period) + amount <= db.accounts[t].limit
    requires var charged := Charge(db, t, amount, period, childKey);
             var n := BeforeTaken(charged, rest, period, childKey);
             r.Ok? && Charges(charged, r.value, rest[..n], amount, period, childKey)
    ensures var n := BeforeTaken(db, [t] + rest, period, childKey);
            Charges(db, r.value, ([t] + rest)[..n], amount, period, childKey)
  {
    var charged := Charge(db, t, amount, period, childKey);
    forall i | 0 <= i < |rest|
      ensures Taken(db, rest[i], period, childKey) <==> Taken(charged, rest[i], period, childKey)
    {
      ChargeTakesOwnKey(db, t, amount, period, childKey, rest[i]);
    }
    SameTaken(db, charged, rest, period, childKey);
    var n := BeforeTaken(db, rest, period, childKey);
    assert ([t] + rest)[1..] == rest && ([t] + rest)[..n + 1] == [t] + rest[..n];
    ChargesCompose(db, charged, r, t, rest[..n], amount, period, childKey);
  }

  /**
   On any tables, bars or not: a walk whose parent links end and whose members stay within their limits charges the
   whole chain if and only if no member's joined key is taken.
   */
  lemma WalkChargesChainIffUntaken(db: Db, t: string, amount: int, period: string, childKey: string)
    requires Chain(db.accounts, t, {}).Some?
    requires WithinLimits(db, Chain(db.accounts, t, {}).value, amount, period)
    ensures var r, c := Walk(db, t, amount, period, childKey, {}), Chain(db.accounts, t, {}).value;
            && r.Ok?
            && (Charges(db, r.value, c, amount, period, childKey) <==>
                forall x :: x in c ==> !HasKey(db.ledger, AncestorKey(childKey, x, period)))
  {
    var c := Chain(db.accounts, t, {}).value;
    WalkChargesUntilTaken(db, t, amount, period, childKey, {});
    var n, d := BeforeTaken(db, c, period, childKey), Walk(db, t, amount, period, childKey, {}).value;
    if n == |c| {
      assert c[..n] == c;
      forall x | x in c ensures !Taken(db, x, period, childKey) {
        var i :| 0 <= i < |c| && c[i] == x;
      }
    } else {
      assert c[n] in c && Taken(db, c[n], period, childKey);
      assert |d.ledger| == |db.ledger| + n;
    }
  }

  // ---- The adjusting walk ----

  ghost predicate Closed(accounts: Accounts) {
    forall x {:trigger ParentOf(accounts, x)} ::
      x in accounts && ParentOf(accounts, x).Some? ==> ParentOf(accounts, x).value in accounts
  }

  /** When every member of the chain has a balance, the adjusting walk moves each by the amount. */
  lemma {:induction false} ShiftMovesChain(db: Db, t: string, amount: int, period: string, visited: set<string>)
    requires t in db.accounts && Chain(db.accounts, t, visited).Some?
    requires Closed(db.accounts)
    requires forall x :: x in Chain(db.accounts, t, visited).value ==> (x, period) in db.balances
    ensures var r, c := Shift(db, t, amount, period, visited), Chain(db.accounts, t, visited).value;
            && r.Ok? && r.value.accounts == db.accounts && r.value.ledger == db.ledger
            && Moves(db, r.value, c, amount, period)
    decreases db.accounts.Keys - visited
  {
    var c := Chain(db.accounts, t, visited).value;
    assert t in c;
    var shifted := db.(balances := db.balances[(t, period) := db.balances[(t, period)] + amount]);
    var parent := ParentOf(db.accounts, t);
    if parent.Some? {
      var rest := Chain(db.accounts, parent.value, visited + {t}).value;
      ChainMembers(db.accounts, parent.value, visited + {t});
      assert forall x :: x in c <==> x == t || x in rest;
      ShiftMovesChain(shifted, parent.value, amount, period, visited + {t});
    }
  }

  // ---- Chains when accounts are added ----

  lemma {:induction false} ChainsSurvive(accounts: Accounts, more: Accounts, t: string, visited: set<string>)
    requires Closed(accounts) && t in accounts
    requires forall x :: x in accounts ==> x in more && ParentOf(more, x) == ParentOf(accounts, x)
    ensures Chain(more, t, visited) == Chain(accounts, t, visited)
    decreases accounts.Keys - visited
  {
    if t !in visited && ParentOf(accounts, t).Some? {
      ChainsSurvive(accounts, more, ParentOf(accounts, t).value, visited + {t});
    }
  }
}
