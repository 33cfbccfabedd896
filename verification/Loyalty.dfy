/**
 * apps/api/src/modules/loyalty/loyalty.service.ts, and the spend that checkout makes in
 * apps/api/src/modules/orders/orders.service.ts: an append-only ledger and the balances
 * cached from it.
 */
module Loyalty {
  import opened Wrappers

  datatype Kind = Earn | Spend | Adjustment | Refund

  datatype Row = Row(customer: string, kind: Kind, amount: int, balanceAfter: int, order: Option<string>)

  datatype Account = Account(tenant: string, balance: int, earned: int, spent: int)

  /** Accounts are keyed by customer; `copies` is the balance kept on the customer row. */
  datatype Db = Db(accounts: map<string, Account>, copies: map<string, int>, ledger: seq<Row>)

  datatype Op =
    | Adjust(amount: int)
    | AccrueFor(order: string, amount: int)
    | RefundFor(order: string, amount: int)
    | SpendFor(order: string, amount: int)

  datatype Error =
    | ValidationFailed
    | MissingTenantContext
    | NotFound
    | InsufficientBalance(available: int, requested: int)
    | UniqueViolation

  // ── what the ledger says ──

  function Net(ledger: seq<Row>, customer: string): int {
    if ledger == [] then 0
    else
      var last := ledger[|ledger| - 1];
      Net(ledger[..|ledger| - 1], customer) + if last.customer == customer then last.amount else 0
  }

  function Credits(ledger: seq<Row>, customer: string): int {
    if ledger == [] then 0
    else
      var last := ledger[|ledger| - 1];
      Credits(ledger[..|ledger| - 1], customer)
      + if last.customer == customer && last.amount > 0 then last.amount else 0
  }

  function Debits(ledger: seq<Row>, customer: string): int {
    if ledger == [] then 0
    else
      var last := ledger[|ledger| - 1];
      Debits(ledger[..|ledger| - 1], customer)
      + if last.customer == customer && last.amount <= 0 then -last.amount else 0
  }

  /** Each row's `balanceAfter` is the sum of its account's rows up to and including it. */
  ghost predicate Audited(ledger: seq<Row>) {
    forall i :: 0 <= i < |ledger| ==>
      ledger[i].balanceAfter == Net(ledger[..i + 1], ledger[i].customer) && ledger[i].balanceAfter >= 0
  }

  predicate SameKey(a: Row, b: Row) {
    a.order.Some? && a.order == b.order && a.kind == b.kind
  }

  /** The unique index on (order, kind). */
  predicate Violates(ledger: seq<Row>, row: Row) {
    exists i :: 0 <= i < |ledger| && SameKey(ledger[i], row)
  }

  ghost predicate UniqueRows(ledger: seq<Row>) {
    forall i, j :: 0 <= i < j < |ledger| ==> !SameKey(ledger[i], ledger[j])
  }

  ghost predicate Reconciled(db: Db, customer: string)
    requires customer in db.accounts
  {
    var a := db.accounts[customer];
    && a.balance == Net(db.ledger, customer) >= 0
    && a.earned == Credits(db.ledger, customer)
    && a.spent == Debits(db.ledger, customer)
  }

  function Cached(db: Db, customer: string): int {
    if customer in db.accounts then db.accounts[customer].balance else 0
  }

  ghost predicate Inv(db: Db) {
    && db.accounts.Keys <= db.copies.Keys
    && (forall c :: c in db.copies ==> db.copies[c] == Cached(db, c))
    && (forall c :: c in db.accounts ==> Reconciled(db, c))
    && (forall i :: 0 <= i < |db.ledger| ==> db.ledger[i].customer in db.accounts)
    && Audited(db.ledger)
    && UniqueRows(db.ledger)
  }

  lemma {:induction false} NetIsCreditsMinusDebits(ledger: seq<Row>, customer: string)
    ensures Net(ledger, customer) == Credits(ledger, customer) - Debits(ledger, customer)
  {
    if ledger != [] {
      NetIsCreditsMinusDebits(ledger[..|ledger| - 1], customer);
    }
  }

  /** The balance, the customer's copy, the ledger and the lifetime totals all agree. */
  lemma BalancesAgree(db: Db, customer: string)
    requires Inv(db) && customer in db.accounts
    ensures var a := db.accounts[customer];
      a.balance == db.copies[customer] == Net(db.ledger, customer) == a.earned - a.spent >= 0
  {
    NetIsCreditsMinusDebits(db.ledger, customer);
    assert Reconciled(db, customer) && db.copies[customer] == Cached(db, customer);
  }

  function EarnCount(ledger: seq<Row>, order: string): nat {
    if ledger == [] then 0
    else
      var last := ledger[|ledger| - 1];
      EarnCount(ledger[..|ledger| - 1], order) + if last.kind == Earn && last.order == Some(order) then 1 else 0
  }

  lemma {:induction false} NoEarnYet(ledger: seq<Row>, order: string)
    requires forall i :: 0 <= i < |ledger| ==> !(ledger[i].kind == Earn && ledger[i].order == Some(order))
    ensures EarnCount(ledger, order) == 0
  {
    if ledger != [] {
      NoEarnYet(ledger[..|ledger| - 1], order);
    }
  }

  /** However often accrual is retried, one order earns at most once. */
  lemma {:induction false} EarnsAtMostOnce(ledger: seq<Row>, order: string)
    requires UniqueRows(ledger)
    ensures EarnCount(ledger, order) <= 1
  {
    if ledger != [] {
      var n := |ledger| - 1;
      EarnsAtMostOnce(ledger[..n], order);
      if ledger[n].kind == Earn && ledger[n].order == Some(order) {
        forall i | 0 <= i < n ensures !SameKey(ledger[i], ledger[n]) {}
        NoEarnYet(ledger[..n], order);
      }
    }
  }

  // ── the operations ──

  function Posted(db: Db, row: Row): Db
    requires row.customer in db.accounts
  {
    var a := db.accounts[row.customer];
    Db(db.accounts[row.customer := a.(
         balance := row.balanceAfter,
         earned := if row.amount > 0 then a.earned + row.amount else a.earned,
         spent := if row.amount > 0 then a.spent else a.spent - row.amount)],
       db.copies[row.customer := row.balanceAfter],
       db.ledger + [row])
  }

  function Load(db: Db, context: Option<string>, customer: string): Result<int, Error> {
    if context.None? then Err(MissingTenantContext)
    else if customer !in db.accounts || db.accounts[customer].tenant != context.value then Err(NotFound)
    else Ok(db.accounts[customer].balance)
  }

  /** What an operation decides from the balance it reads: the balance to post on, nothing, or an error. */
  function Admit(db: Db, context: Option<string>, customer: string, op: Op): Result<Option<int>, Error> {
    var read := Load(db, context, customer);
    match op
    case Adjust(amount) =>
      if amount == 0 then Err(ValidationFailed)
      else if read.Err? then Err(read.error)
      else if read.value + amount < 0 then Err(InsufficientBalance(read.value, -amount))
      else Ok(Some(read.value))
    case SpendFor(_, amount) =>
      if read == Err(NotFound) then Err(InsufficientBalance(0, amount))
      else if read.Err? then Err(read.error)
      else if read.value < amount then Err(InsufficientBalance(read.value, amount))
      else Ok(Some(read.value))
    case _ =>
      if op.amount <= 0 then Ok(None)
      else if read.Err? then Err(read.error)
      else Ok(Some(read.value))
  }

  function RowFor(customer: string, op: Op, read: int): Row {
    match op
    case Adjust(amount) => Row(customer, Adjustment, amount, read + amount, None)
    case AccrueFor(order, amount) => Row(customer, Earn, amount, read + amount, Some(order))
    case RefundFor(order, amount) => Row(customer, Refund, amount, read + amount, Some(order))
    case SpendFor(order, amount) => Row(customer, Spend, -amount, read - amount, Some(order))
  }

  function Finish(db: Db, row: Row): Db
    requires row.customer in db.accounts
  {
    if Violates(db.ledger, row) then db else Posted(db, row)
  }

  /** The operation run with nothing in between. */
  function Performed(db: Db, context: Option<string>, customer: string, op: Op): Db {
    match Admit(db, context, customer, op)
    case Ok(Some(read)) => Finish(db, RowFor(customer, op, read))
    case _ => db
  }

  function Answer(db: Db, context: Option<string>, customer: string, op: Op): Result<Option<Row>, Error> {
    match Admit(db, context, customer, op)
    case Err(e) => Err(e)
    case Ok(None) => Ok(None)
    case Ok(Some(read)) =>
      var row := RowFor(customer, op, read);
      if !Violates(db.ledger, row) then Ok(Some(row)) else if op.SpendFor? then Err(UniqueViolation) else Ok(None)
  }

  function Opened(db: Db, tenant: string, customer: string): Db {
    if customer in db.accounts then db
    else db.(accounts := db.accounts[customer := Account(tenant, 0, 0, 0)])
  }

  // ── what keeps the books straight ──

  lemma AuditedBefore(ledger: seq<Row>, row: Row, i: nat)
    requires Audited(ledger) && i < |ledger|
    ensures var longer := ledger + [row];
      longer[i].balanceAfter == Net(longer[..i + 1], longer[i].customer) && longer[i].balanceAfter >= 0
  {
    assert (ledger + [row])[..i + 1] == ledger[..i + 1];
  }

  lemma AppendKeepsAudit(ledger: seq<Row>, row: Row)
    requires Audited(ledger)
    ensures Audited(ledger + [row]) <==> row.balanceAfter == Net(ledger, row.customer) + row.amount >= 0
  {
    var longer := ledger + [row];
    assert longer[..|longer|] == longer && longer[..|ledger|] == ledger;
    assert Net(longer, row.customer) == Net(ledger, row.customer) + row.amount;
    if row.balanceAfter == Net(ledger, row.customer) + row.amount >= 0 {
      forall i | 0 <= i < |longer|
        ensures longer[i].balanceAfter == Net(longer[..i + 1], longer[i].customer) && longer[i].balanceAfter >= 0
      {
        if i < |ledger| { AuditedBefore(ledger, row, i); }
      }
    } else {
      assert longer[|ledger|] == row;
    }
  }

  lemma AppendReconciles(db: Db, row: Row, customer: string)
    requires row.customer in db.accounts && customer in db.accounts && Reconciled(db, customer)
    requires row.balanceAfter == db.accounts[row.customer].balance + row.amount >= 0
    ensures Reconciled(Posted(db, row), customer)
  {
    assert (db.ledger + [row])[..|db.ledger|] == db.ledger;
  }

  /** A post keeps every balance equal to its ledger exactly when it adds to the balance as it is now. */
  lemma PostKeepsInvExactly(db: Db, row: Row)
    requires Inv(db) && row.customer in db.accounts && !Violates(db.ledger, row)
    ensures Inv(Posted(db, row)) <==> row.balanceAfter == db.accounts[row.customer].balance + row.amount >= 0
  {
    AppendKeepsAudit(db.ledger, row);
    assert Reconciled(db, row.customer);
    var after := Posted(db, row);
    if row.balanceAfter == db.accounts[row.customer].balance + row.amount >= 0 {
      forall c | c in after.accounts ensures Reconciled(after, c) {
        AppendReconciles(db, row, c);
      }
      forall c | c in after.copies ensures after.copies[c] == Cached(after, c) {
        assert c != row.customer ==> db.copies[c] == Cached(db, c);
      }
    }
  }

  /** A spend is only made for a positive discount. */
  predicate Sensible(op: Op) {
    op.SpendFor? ==> op.amount > 0
  }

  lemma AdmittedRow(db: Db, context: Option<string>, customer: string, op: Op)
    requires Inv(db) && Sensible(op) && Admit(db, context, customer, op).Ok?
    ensures var read := Admit(db, context, customer, op).value;
      read.Some? ==>
        && customer in db.accounts && read.value == db.accounts[customer].balance
        && RowFor(customer, op, read.value).balanceAfter >= 0
  {
    if customer in db.accounts { assert Reconciled(db, customer); }
  }

  /** Every operation run atomically keeps the books straight. */
  lemma PerformedKeepsInv(db: Db, context: Option<string>, customer: string, op: Op)
    requires Inv(db) && Sensible(op)
    ensures Inv(Performed(db, context, customer, op))
  {
    var admitted := Admit(db, context, customer, op);
    if admitted.Ok? && admitted.value.Some? {
      AdmittedRow(db, context, customer, op);
      var row := RowFor(customer, op, admitted.value.value);
      if !Violates(db.ledger, row) {
        PostKeepsInvExactly(db, row);
      }
    }
  }

  /** The signed change an operation asks for. */
  function Change(op: Op): int { if op.SpendFor? then -op.amount else op.amount }

  ghost predicate RowExists(ledger: seq<Row>, order: string, kind: Kind) {
    exists i :: 0 <= i < |ledger| && ledger[i].order == Some(order) && ledger[i].kind == kind
  }

  lemma ViolatesExactly(ledger: seq<Row>, customer: string, op: Op, read: int)
    ensures Violates(ledger, RowFor(customer, op, read)) <==> !op.Adjust? && RowExists(ledger, op.order, KindOf(op))
  {
    var row := RowFor(customer, op, read);
    if !op.Adjust? && RowExists(ledger, op.order, KindOf(op)) {
      var i :| 0 <= i < |ledger| && ledger[i].order == Some(op.order) && ledger[i].kind == KindOf(op);
      assert SameKey(ledger[i], row);
    }
  }

  /**
   * An operation posts exactly when the tenant's account exists, the amount is a sensible one,
   * the balance covers it and the order has no such row yet.
   */
  lemma PostsExactly(db: Db, context: Option<string>, customer: string, op: Op)
    requires Inv(db) && Sensible(op)
    ensures Posts(db, context, customer, op) <==>
      && context.Some? && customer in db.accounts && db.accounts[customer].tenant == context.value
      && (if op.Adjust? then op.amount != 0 else op.amount > 0)
      && Cached(db, customer) + Change(op) >= 0
      && (op.Adjust? || !RowExists(db.ledger, op.order, KindOf(op)))
  {
    if customer in db.accounts { assert Reconciled(db, customer); }
    ViolatesExactly(db.ledger, customer, op, Cached(db, customer));
  }

  /** The answer of every operation, case by case. */
  lemma AnswersExactly(db: Db, context: Option<string>, customer: string, op: Op)
    ensures var answer, balance := Answer(db, context, customer, op), Cached(db, customer);
      var found := customer in db.accounts && Some(db.accounts[customer].tenant) == context;
      match op
      case Adjust(amount) =>
        answer == (
          if amount == 0 then Err(ValidationFailed)
          else if context == None then Err(MissingTenantContext)
          else if !found then Err(NotFound)
          else if balance + amount < 0 then Err(InsufficientBalance(balance, -amount))
          else Ok(Some(Row(customer, Adjustment, amount, balance + amount, None))))
      case AccrueFor(order, amount) =>
        answer == (
          if amount <= 0 then Ok(None)
          else if context == None then Err(MissingTenantContext)
          else if !found then Err(NotFound)
          else if RowExists(db.ledger, order, Earn) then Ok(None)
          else Ok(Some(Row(customer, Earn, amount, balance + amount, Some(order)))))
      case RefundFor(order, amount) =>
        answer == (
          if amount <= 0 then Ok(None)
          else if context == None then Err(MissingTenantContext)
          else if !found then Err(NotFound)
          else if RowExists(db.ledger, order, Refund) then Ok(None)
          else Ok(Some(Row(customer, Refund, amount, balance + amount, Some(order)))))
      case SpendFor(order, amount) =>
        answer == (
          if context == None then Err(MissingTenantContext)
          else if !found then Err(InsufficientBalance(0, amount))
          else if balance < amount then Err(InsufficientBalance(balance, amount))
          else if RowExists(db.ledger, order, Spend) then Err(UniqueViolation)
          else Ok(Some(Row(customer, Spend, -amount, balance - amount, Some(order)))))
  {
    ViolatesExactly(db.ledger, customer, op, Cached(db, customer));
  }

  predicate Posts(db: Db, context: Option<string>, customer: string, op: Op) {
    var answer := Answer(db, context, customer, op);
    answer.Ok? && answer.value.Some?
  }

  /** Posting moves that customer's balance by the amount asked, and nobody else's. */
  lemma MovesOneBalance(db: Db, context: Option<string>, customer: string, op: Op, other: string)
    ensures Cached(Performed(db, context, customer, op), other)
      == Cached(db, other) + if Posts(db, context, customer, op) && other == customer then Change(op) else 0
  {
  }

  function KindOf(op: Op): Kind {
    match op
    case Adjust(_) => Adjustment
    case AccrueFor(_, _) => Earn
    case RefundFor(_, _) => Refund
    case SpendFor(_, _) => Spend
  }

  lemma {:induction false} NoRowsNoSums(ledger: seq<Row>, customer: string)
    requires forall i :: 0 <= i < |ledger| ==> ledger[i].customer != customer
    ensures Net(ledger, customer) == Credits(ledger, customer) == Debits(ledger, customer) == 0
  {
    if ledger != [] {
      NoRowsNoSums(ledger[..|ledger| - 1], customer);
    }
  }

  lemma OpenedKeepsInv(db: Db, tenant: string, customer: string)
    requires Inv(db) && customer in db.copies
    ensures Inv(Opened(db, tenant, customer))
  {
    var after := Opened(db, tenant, customer);
    if customer !in db.accounts {
      NoRowsNoSums(db.ledger, customer);
      assert db.copies[customer] == Cached(db, customer);
      forall c | c in after.accounts ensures Reconciled(after, c) {
        assert c != customer ==> Reconciled(db, c);
      }
      forall c | c in after.copies ensures after.copies[c] == Cached(after, c) {
        assert db.copies[c] == Cached(db, c);
      }
    }
  }

  /** Once an order has earned, accruing for it again changes nothing, whatever is asked. */
  lemma AccrueTwiceIsOnce(
    db: Db, context: Option<string>, customer: string, order: string, amount: int,
    context': Option<string>, customer': string, amount': int)
    requires Admit(db, context, customer, AccrueFor(order, amount)).Ok?
    requires Admit(db, context, customer, AccrueFor(order, amount)).value.Some?
    ensures var once := Performed(db, context, customer, AccrueFor(order, amount));
      Performed(once, context', customer', AccrueFor(order, amount')) == once
  {
    var read := Admit(db, context, customer, AccrueFor(order, amount)).value.value;
    var row := RowFor(customer, AccrueFor(order, amount), read);
    var once := Performed(db, context, customer, AccrueFor(order, amount));
    assert exists i :: 0 <= i < |once.ledger| && SameKey(once.ledger[i], row) by {
      if !Violates(db.ledger, row) { assert once.ledger[|db.ledger|] == row; }
    }
    var admitted := Admit(once, context', customer', AccrueFor(order, amount'));
    if admitted.Ok? && admitted.value.Some? {
      var row' := RowFor(customer', AccrueFor(order, amount'), admitted.value.value);
      var i :| 0 <= i < |once.ledger| && SameKey(once.ledger[i], row);
      assert SameKey(once.ledger[i], row');
      assert Violates(once.ledger, row');
    }
  }

  // ── the service ──

  class LoyaltyService {
    var accounts: map<string, Account>
    var copies: map<string, int>
    var ledger: seq<Row>

    ghost function Books(): Db
      reads this
    {
      Db(accounts, copies, ledger)
    }

    /** No accounts yet, and every customer's copy at zero. */
    constructor (customers: set<string>)
      ensures Inv(Books()) && copies.Keys == customers && accounts == map[] && ledger == []
    {
      accounts, ledger := map[], [];
      copies := map c | c in customers :: 0;
    }

    method OpenAccount(tenant: string, customer: string) returns (balance: int)
      requires Inv(Books()) && customer in copies
      modifies this
      ensures Books() == Opened(old(Books()), tenant, customer) && Inv(Books())
      ensures balance == accounts[customer].balance
    {
      OpenedKeepsInv(Books(), tenant, customer);
      if customer !in accounts {
        accounts := accounts[customer := Account(tenant, 0, 0, 0)];
      }
      balance := accounts[customer].balance;
    }

    method LoadAccountForUpdate(context: Option<string>, customer: string) returns (r: Result<int, Error>)
      ensures r == Load(Books(), context, customer)
    {
      if context.None? { return Err(MissingTenantContext); }
      if customer !in accounts || accounts[customer].tenant != context.value { return Err(NotFound); }
      return Ok(accounts[customer].balance);
    }

    method Post(row: Row) returns (ok: bool)
      requires row.customer in accounts && row.customer in copies
      modifies this
      ensures ok <==> !Violates(old(ledger), row)
      ensures Books() == Finish(old(Books()), row)
    {
      for i := 0 to |ledger|
        invariant forall j :: 0 <= j < i ==> !SameKey(ledger[j], row)
        invariant Books() == old(Books())
      {
        if SameKey(ledger[i], row) { return false; }
      }
      ledger := ledger + [row];
      var a := accounts[row.customer].(balance := row.balanceAfter);
      a := if row.amount > 0 then a.(earned := a.earned + row.amount) else a.(spent := a.spent - row.amount);
      accounts := accounts[row.customer := a];
      copies := copies[row.customer := row.balanceAfter];
      return true;
    }

    method AdjustBalance(context: Option<string>, customer: string, amount: int)
      returns (r: Result<Option<Row>, Error>)
      requires Inv(Books())
      modifies this
      ensures r == Answer(old(Books()), context, customer, Adjust(amount))
      ensures Books() == Performed(old(Books()), context, customer, Adjust(amount)) && Inv(Books())
    {
      PerformedKeepsInv(Books(), context, customer, Adjust(amount));
      if amount == 0 { return Err(ValidationFailed); }
      var read := LoadAccountForUpdate(context, customer);
      if read.Err? { return Err(read.error); }
      var balanceAfter := read.value + amount;
      if balanceAfter < 0 { return Err(InsufficientBalance(read.value, -amount)); }
      var row := Row(customer, Adjustment, amount, balanceAfter, None);
      var ok := Post(row);
      return Ok(if ok then Some(row) else None);
    }

    method AccrueForOrder(context: Option<string>, customer: string, order: string, amount: int)
      returns (r: Result<Option<Row>, Error>)
      requires Inv(Books())
      modifies this
      ensures r == Answer(old(Books()), context, customer, AccrueFor(order, amount))
      ensures Books() == Performed(old(Books()), context, customer, AccrueFor(order, amount)) && Inv(Books())
    {
      PerformedKeepsInv(Books(), context, customer, AccrueFor(order, amount));
      if amount <= 0 { return Ok(None); }
      var read := LoadAccountForUpdate(context, customer);
      if read.Err? { return Err(read.error); }
      var row := Row(customer, Earn, amount, read.value + amount, Some(order));
      var ok := Post(row);
      return Ok(if ok then Some(row) else None);
    }

    method RefundForOrder(context: Option<string>, customer: string, order: string, amount: int)
      returns (r: Result<Option<Row>, Error>)
      requires Inv(Books())
      modifies this
      ensures r == Answer(old(Books()), context, customer, RefundFor(order, amount))
      ensures Books() == Performed(old(Books()), context, customer, RefundFor(order, amount)) && Inv(Books())
    {
      PerformedKeepsInv(Books(), context, customer, RefundFor(order, amount));
      if amount <= 0 { return Ok(None); }
      var read := LoadAccountForUpdate(context, customer);
      if read.Err? { return Err(read.error); }
      var row := Row(customer, Refund, amount, read.value + amount, Some(order));
      var ok := Post(row);
      return Ok(if ok then Some(row) else None);
    }

    method SpendLoyalty(context: Option<string>, customer: string, order: string, amount: int)
      returns (r: Result<Option<Row>, Error>)
      requires Inv(Books()) && amount > 0
      modifies this
      ensures r == Answer(old(Books()), context, customer, SpendFor(order, amount))
      ensures Books() == Performed(old(Books()), context, customer, SpendFor(order, amount)) && Inv(Books())
    {
      PerformedKeepsInv(Books(), context, customer, SpendFor(order, amount));
      var read := LoadAccountForUpdate(context, customer);
      if read == Err(NotFound) { return Err(InsufficientBalance(0, amount)); }
      if read.Err? { return Err(read.error); }
      if read.value < amount { return Err(InsufficientBalance(read.value, amount)); }
      var row := Row(customer, Spend, -amount, read.value - amount, Some(order));
      var ok := Post(row);
      return if ok then Ok(Some(row)) else Err(UniqueViolation);
    }
  }
}
