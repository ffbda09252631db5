/** Hierarchical budgets over three tables (src/orchestra/cost/persistent_budget.py). */
module BudgetLedger {
  import opened Wrappers

  // ---- Tables ----

  /** A row of budget_accounts; amounts are in microdollars. */
  datatype Account = Account(parent: Option<string>, limit: int, daily: bool)

  datatype EntryType = DebitEstimate | ParentDebit | CreditCorrection

  /** An idempotency key: one a client chose, or the (ideal) hash of a joined string. */
  datatype LedgerKey = Client(key: string) | Hashed(raw: string)

  datatype Row = Row(tenant: string, kind: EntryType, amount: int, run: Option<string>, key: LedgerKey, period: string)

  type Accounts = map<string, Account>

  type Balances = map<(string, string), int>

  datatype Db = Db(accounts: Accounts, ledger: seq<Row>, balances: Balances)

  datatype BudgetError =
    | BudgetExceeded(tenant: string, spent: int, limit: int)
    | CyclicHierarchy(tenant: string)
    | IntegrityError

  /** The current date, in the two formats a period can have. */
  datatype Clock = Clock(day: string, month: string)

  function PeriodOf(daily: bool, now: Clock): string {
    if daily then now.day else now.month
  }

  /** The parent the walks follow; an empty parent id counts as none. */
  function ParentOf(accounts: Accounts, t: string): Option<string> {
    if t in accounts && accounts[t].parent.Some? && accounts[t].parent.value != "" then accounts[t].parent else None
  }

  function Spent(db: Db, t: string, period: string): int {
    if (t, period) in db.balances then db.balances[(t, period)] else 0
  }

  predicate HasKey(ledger: seq<Row>, key: LedgerKey) {
    exists r :: r in ledger && r.key == key
  }

  function AncestorKey(childKey: string, t: string, period: string): LedgerKey {
    Hashed(childKey + "|" + t + "|" + period)
  }

  function AncestorRow(t: string, amount: int, period: string, childKey: string): Row {
    Row(t, ParentDebit, amount, None, AncestorKey(childKey, t, period), period)
  }

  // ---- Transactions as functions ----

  /** create_account; a parent must exist, or be the account itself. */
  function Created(
    db: Db, t: string, parent: Option<string>, limit: int, daily: bool, now: Clock): Result<Db, BudgetError> {
    if parent.Some? && parent.value != t && parent.value !in db.accounts then Err(IntegrityError) else
    var slot := (t, PeriodOf(daily, now));
    Ok(Db(db.accounts[t := Account(parent, limit, daily)], db.ledger,
          if slot in db.balances then db.balances else db.balances[slot := 0]))
  }

  /** One node of the debit walk: its ledger row and its balance. */
  function Charge(db: Db, t: string, amount: int, period: string, childKey: string): Db {
    db.(ledger := db.ledger + [AncestorRow(t, amount, period, childKey)],
        balances := db.balances[(t, period) := Spent(db, t, period) + amount])
  }

  /** _recursive_check_and_update. */
  function Walk(
    db: Db, t: string, amount: int, period: string, childKey: string, visited: set<string>)
    : (r: Result<Db, BudgetError>)
    ensures r.Ok? ==> r.value.accounts == db.accounts
    decreases db.accounts.Keys - visited
  {
    if t in visited then Err(CyclicHierarchy(t))
    else if t !in db.accounts then Ok(db)
    else if Spent(db, t, period) + amount > db.accounts[t].limit then
      Err(BudgetExceeded(t, Spent(db, t, period) + amount, db.accounts[t].limit))
    else if HasKey(db.ledger, AncestorKey(childKey, t, period)) then Ok(db)
    else
      var charged := Charge(db, t, amount, period, childKey);
      match ParentOf(db.accounts, t)
      case None => Ok(charged)
      case Some(parent) => Walk(charged, parent, amount, period, childKey, visited + {t})
  }

  /** check_and_debit, when it is neither a replay nor for an unknown tenant. */
  function Debit(db: Db, t: string, amount: int, run: string, key: string, now: Clock): Result<Db, BudgetError>
    requires t in db.accounts
  {
    var period := PeriodOf(db.accounts[t].daily, now);
    match Walk(db, t, amount, period, key, {})
    case Err(e) => Err(e)
    case Ok(walked) =>
      Ok(walked.(ledger := walked.ledger + [Row(t, DebitEstimate, amount, Some(run), Client(key), period)]))
  }

  function Debited(db: Db, t: string, amount: int, run: string, key: string, now: Clock): Result<Db, BudgetError> {
    if HasKey(db.ledger, Client(key)) || t !in db.accounts then Ok(db) else Debit(db, t, amount, run, key, now)
  }

  predicate IsEstimate(r: Row, t: string, run: string) {
    r.tenant == t && r.run == Some(run) && r.kind == DebitEstimate
  }

  function FirstEstimate(ledger: seq<Row>, t: string, run: string): Option<Row> {
    if ledger == [] then None
    else if IsEstimate(ledger[0], t, run) then Some(ledger[0])
    else FirstEstimate(ledger[1..], t, run)
  }

  /** _recursive_update_balance: only balances that exist are updated. */
  function Shift(db: Db, t: string, amount: int, period: string, visited: set<string>): (r: Result<Db, BudgetError>)
    decreases db.accounts.Keys - visited
  {
    if t in visited then Err(CyclicHierarchy(t)) else
    var slot := (t, period);
    var shifted := if slot in db.balances then db.(balances := db.balances[slot := db.balances[slot] + amount]) else db;
    match ParentOf(db.accounts, t)
    case None => Ok(shifted)
    case Some(parent) => Shift(shifted, parent, amount, period, visited + {t})
  }

  function Adjusted(db: Db, t: string, run: string, actual: int, key: string): Result<Db, BudgetError> {
    match FirstEstimate(db.ledger, t, run)
    case None => Ok(db)
    case Some(estimate) =>
      if HasKey(db.ledger, Client(key)) then Err(IntegrityError) else
      var diff := actual - estimate.amount;
      var row := Row(t, CreditCorrection, -diff, Some(run), Client(key), estimate.period);
      Shift(db.(ledger := db.ledger + [row]), t, diff, estimate.period, {})
  }

  /** What an unknown tenant is told it has left: a million dollars. */
  const UNLIMITED := 1_000_000_000_000

  function Remaining(db: Db, t: string, now: Clock): int {
    if t !in db.accounts then UNLIMITED else
    var left := db.accounts[t].limit - Spent(db, t, PeriodOf(db.accounts[t].daily, now));
    if left > 0 then left else 0
  }

  // ---- The store ----

  class PersistentBudgetStore {
    var accounts: Accounts
    var ledger: seq<Row>
    var balances: Balances

    constructor ()
      ensures Tables() == Db(map[], [], map[])
    {
      accounts, ledger, balances := map[], [], map[];
    }

    function Tables(): Db
      reads this
    {
      Db(accounts, ledger, balances)
    }

    method Rollback(saved: Db)
      modifies this
      ensures Tables() == saved
    {
      accounts, ledger, balances := saved.accounts, saved.ledger, saved.balances;
    }

    method CreateAccount(
      t: string, parent: Option<string>, limit: int, daily: bool, now: Clock) returns (error: Option<BudgetError>)
      modifies this
      ensures var r := Created(old(Tables()), t, parent, limit, daily, now);
              match r case Ok(db) => error.None? && Tables() == db
                      case Err(e) => error == Some(e) && Tables() == old(Tables())
    {
      if parent.Some? && parent.value != t && parent.value !in accounts {
        return Some(IntegrityError);
      }
      accounts := accounts[t := Account(parent, limit, daily)];
      var slot := (t, PeriodOf(daily, now));
      if slot !in balances {
        balances := balances[slot := 0];
      }
      return None;
    }

    method RecursiveCheckAndUpdate(t: string, amount: int, period: string, childKey: string, visited: set<string>)
      returns (error: Option<BudgetError>)
      modifies `ledger, `balances
      ensures match Walk(old(Tables()), t, amount, period, childKey, visited)
              case Ok(db) => error.None? && Tables() == db
              case Err(e) => error == Some(e)
      decreases accounts.Keys - visited
    {
      if t in visited {
        return Some(CyclicHierarchy(t));
      }
      if t !in accounts {
        return None;
      }
      var spent := if (t, period) in balances then balances[(t, period)] else 0;
      if spent + amount > accounts[t].limit {
        return Some(BudgetExceeded(t, spent + amount, accounts[t].limit));
      }
      if HasKey(ledger, AncestorKey(childKey, t, period)) {
        return None;
      }
      ledger := ledger + [AncestorRow(t, amount, period, childKey)];
      balances := balances[(t, period) := spent + amount];
      var parent := ParentOf(accounts, t);
      if parent.Some? {
        error := RecursiveCheckAndUpdate(parent.value, amount, period, childKey, visited + {t});
      } else {
        error := None;
      }
    }

    /** BEGIN IMMEDIATE, the walk and the estimate row, or a rollback that leaves all three tables as they were. */
    method CheckAndDebit(t: string, amount: int, run: string, key: string, now: Clock)
      returns (r: Result<int, BudgetError>)
      modifies this
      ensures match Debited(old(Tables()), t, amount, run, key, now)
              case Ok(db) => Tables() == db && r == Ok(Remaining(db, t, now))
              case Err(e) => Tables() == old(Tables()) && r == Err(e)
    {
      var begin := Tables();
      if HasKey(ledger, Client(key)) || t !in accounts {
        return Ok(Remaining(Tables(), t, now));
      }
      var period := PeriodOf(accounts[t].daily, now);
      var error := RecursiveCheckAndUpdate(t, amount, period, key, {});
      if error.Some? {
        Rollback(begin);
        return Err(error.value);
      }
      ledger := ledger + [Row(t, DebitEstimate, amount, Some(run), Client(key), period)];
      return Ok(Remaining(Tables(), t, now));
    }

    method RecursiveUpdateBalance(t: string, amount: int, period: string, visited: set<string>)
      returns (error: Option<BudgetError>)
      modifies `balances
      ensures match Shift(old(Tables()), t, amount, period, visited)
              case Ok(db) => error.None? && Tables() == db
              case Err(e) => error == Some(e)
      decreases accounts.Keys - visited
    {
      if t in visited {
        return Some(CyclicHierarchy(t));
      }
      if (t, period) in balances {
        balances := balances[(t, period) := balances[(t, period)] + amount];
      }
      var parent := ParentOf(accounts, t);
      if parent.Some? {
        error := RecursiveUpdateBalance(parent.value, amount, period, visited + {t});
      } else {
        error := None;
      }
    }

    method AdjustActual(t: string, run: string, actual: int, key: string) returns (error: Option<BudgetError>)
      modifies this
      ensures match Adjusted(old(Tables()), t, run, actual, key)
              case Ok(db) => error.None? && Tables() == db
              case Err(e) => error == Some(e) && Tables() == old(Tables())
    {
      var begin := Tables();
      var estimate := FirstEstimate(ledger, t, run);
      if estimate.None? {
        return None;
      }
      if HasKey(ledger, Client(key)) {
        return Some(IntegrityError);
      }
      var diff, period := actual - estimate.value.amount, estimate.value.period;
      ledger := ledger + [Row(t, CreditCorrection, -diff, Some(run), Client(key), period)];
      error := RecursiveUpdateBalance(t, diff, period, {});
      if error.Some? {
        Rollback(begin);
      }
    }
  }
}
