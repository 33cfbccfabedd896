/**
 * Concurrent loyalty transactions. Adjusting, accruing and refunding lock the account row
 * before reading it. The spend in checkout reads it without a lock and writes later; what it
 * does hold, from before that read until it commits, is the tenant's order sequence of the day.
 */
module LoyaltyProtocol {
  import opened Loyalty
  import opened Wrappers

  /** A transaction that has read a balance and has not yet committed. */
  datatype Tx = Tx(context: Option<string>, day: int, customer: string, op: Op, read: int)

  datatype State = State(db: Db, txs: map<nat, Tx>)

  datatype Step =
    | Open(tenant: string, customer: string)
    | Begin(tx: nat, context: Option<string>, day: int, customer: string, op: Op)
    | Commit(tx: nat)
    | Abort(tx: nat)

  predicate Locks(op: Op) { !op.SpendFor? }

  /** Some other transaction holds the account row. */
  predicate HeldByOther(s: State, tx: nat, customer: string) {
    exists t :: t in s.txs && t != tx && s.txs[t].customer == customer && Locks(s.txs[t].op)
  }

  /** Some other checkout of the tenant holds the sequence row of this UTC day. */
  predicate SequenceHeld(s: State, context: Option<string>, day: int) {
    exists t :: t in s.txs && s.txs[t].op.SpendFor? && s.txs[t].context == context && s.txs[t].day == day
  }

  /** `SELECT … FOR UPDATE` waits for the row; a spend waits for it only when it writes. */
  predicate Enabled(s: State, step: Step) {
    match step
    case Open(_, customer) => customer in s.db.copies
    case Begin(tx, context, day, customer, op) =>
      && tx !in s.txs && Sensible(op)
      && if Locks(op) then !HeldByOther(s, tx, customer) else !SequenceHeld(s, context, day)
    case Commit(tx) => tx in s.txs && s.txs[tx].customer in s.db.accounts && !HeldByOther(s, tx, s.txs[tx].customer)
    case Abort(tx) => tx in s.txs
  }

  function Apply(s: State, step: Step): State
    requires Enabled(s, step)
  {
    match step
    case Open(tenant, customer) => s.(db := Opened(s.db, tenant, customer))
    case Begin(tx, context, day, customer, op) =>
      (match Admit(s.db, context, customer, op)
       case Ok(Some(read)) => s.(txs := s.txs[tx := Tx(context, day, customer, op, read)])
       case _ => s)
    case Commit(tx) =>
      var t := s.txs[tx];
      State(Finish(s.db, RowFor(t.customer, t.op, t.read)), s.txs - {tx})
    case Abort(tx) => s.(txs := s.txs - {tx})
  }

  ghost predicate TxInv(s: State, tx: nat)
    requires tx in s.txs
  {
    var t := s.txs[tx];
    && t.customer in s.db.accounts
    && RowFor(t.customer, t.op, t.read).balanceAfter >= 0
    && (Locks(t.op) ==> t.read == s.db.accounts[t.customer].balance && !HeldByOther(s, tx, t.customer))
  }

  ghost predicate StateInv(s: State) {
    && Inv(s.db)
    && forall tx :: tx in s.txs ==> TxInv(s, tx)
  }

  /** A spend about to post on a balance that is no longer the account's. */
  predicate StaleSpend(s: State, step: Step) {
    && step.Commit? && step.tx in s.txs
    && var t := s.txs[step.tx];
       && t.op.SpendFor? && t.customer in s.db.accounts && t.read != s.db.accounts[t.customer].balance
       && !Violates(s.db.ledger, RowFor(t.customer, t.op, t.read))
  }

  lemma OthersKeepTheirs(s: State, tx: nat, other: nat, db: Db)
    requires StateInv(s) && tx in s.txs && other in s.txs && other != tx
    requires !HeldByOther(s, tx, s.txs[tx].customer)
    requires s.db.accounts.Keys <= db.accounts.Keys
    requires forall c :: c in s.db.accounts && c != s.txs[tx].customer ==> db.accounts[c] == s.db.accounts[c]
    ensures TxInv(State(db, s.txs - {tx}), other)
  {
    assert TxInv(s, other);
    assert !HeldByOther(s, other, s.txs[other].customer) ==>
        !HeldByOther(State(db, s.txs - {tx}), other, s.txs[other].customer);
  }

  lemma EndingKeepsTxs(s: State, tx: nat, db: Db)
    requires StateInv(s) && tx in s.txs && !HeldByOther(s, tx, s.txs[tx].customer)
    requires s.db.accounts.Keys <= db.accounts.Keys
    requires forall c :: c in s.db.accounts && c != s.txs[tx].customer ==> db.accounts[c] == s.db.accounts[c]
    ensures forall t :: t in s.txs - {tx} ==> TxInv(State(db, s.txs - {tx}), t)
  {
    forall t | t in s.txs - {tx} ensures TxInv(State(db, s.txs - {tx}), t) {
      OthersKeepTheirs(s, tx, t, db);
    }
  }

  /** A commit keeps the books straight exactly when it is not a stale spend. */
  lemma CommitExact(s: State, tx: nat)
    requires StateInv(s) && Enabled(s, Commit(tx))
    ensures StateInv(Apply(s, Commit(tx))) <==> !StaleSpend(s, Commit(tx))
  {
    var t := s.txs[tx];
    assert TxInv(s, tx);
    var row := RowFor(t.customer, t.op, t.read);
    if !Violates(s.db.ledger, row) {
      PostKeepsInvExactly(s.db, row);
    }
    EndingKeepsTxs(s, tx, Finish(s.db, row));
  }

  lemma AbortKeepsInv(s: State, tx: nat)
    requires StateInv(s) && tx in s.txs
    ensures StateInv(s.(txs := s.txs - {tx}))
  {
    var after := s.(txs := s.txs - {tx});
    forall t | t in after.txs ensures TxInv(after, t) {
      assert TxInv(s, t);
      assert !HeldByOther(s, t, s.txs[t].customer) ==> !HeldByOther(after, t, s.txs[t].customer);
    }
  }

  lemma BeginKeepsInv(s: State, step: Step)
    requires StateInv(s) && step.Begin? && Enabled(s, step)
    ensures StateInv(Apply(s, step))
  {
    var admitted := Admit(s.db, step.context, step.customer, step.op);
    if admitted.Ok? && admitted.value.Some? {
      AdmittedRow(s.db, step.context, step.customer, step.op);
      var after := Apply(s, step);
      forall t | t in after.txs ensures TxInv(after, t) {
        if t != step.tx {
          assert TxInv(s, t);
        }
      }
    }
  }

  lemma OpenKeepsInv(s: State, tenant: string, customer: string)
    requires StateInv(s) && customer in s.db.copies
    ensures StateInv(s.(db := Opened(s.db, tenant, customer)))
  {
    OpenedKeepsInv(s.db, tenant, customer);
    var after := s.(db := Opened(s.db, tenant, customer));
    forall t | t in after.txs ensures TxInv(after, t) {
      assert TxInv(s, t);
      assert !HeldByOther(s, t, s.txs[t].customer) ==> !HeldByOther(after, t, s.txs[t].customer);
    }
  }

  /** One step keeps the books straight exactly when it is not a stale spend. */
  lemma StepExact(s: State, step: Step)
    requires StateInv(s) && Enabled(s, step)
    ensures StateInv(Apply(s, step)) <==> !StaleSpend(s, step)
  {
    match step
    case Open(tenant, customer) => OpenKeepsInv(s, tenant, customer);
    case Begin(_, _, _, _, _) => BeginKeepsInv(s, step);
    case Commit(tx) => CommitExact(s, tx);
    case Abort(tx) => AbortKeepsInv(s, tx);
  }

  // ── runs ──

  /** Begun and rolled back, an operation leaves no trace. */
  lemma AbortLeavesNothing(s: State, tx: nat, context: Option<string>, day: int, customer: string, op: Op)
    requires Enabled(s, Begin(tx, context, day, customer, op))
    requires tx in Apply(s, Begin(tx, context, day, customer, op)).txs
    ensures var begun := Apply(s, Begin(tx, context, day, customer, op));
      Enabled(begun, Abort(tx)) && Apply(begun, Abort(tx)) == s
  {
    assert Apply(s, Begin(tx, context, day, customer, op)).txs - {tx} == s.txs;
  }

  datatype Run = Start | Then(before: Run, step: Step)

  function Final(start: State, run: Run): Option<State> {
    match run
    case Start => Some(start)
    case Then(before, step) =>
      match Final(start, before)
      case None => None
      case Some(s) => if Enabled(s, step) then Some(Apply(s, step)) else None
  }

  /** Along the run every spend posts on the balance the account has at that moment. */
  predicate SpendsAreAtomic(start: State, run: Run) {
    run.Then? ==>
      && SpendsAreAtomic(start, run.before)
      && (Final(start, run.before).Some? ==> !StaleSpend(Final(start, run.before).value, run.step))
  }

  /**
   * From any good state, in every interleaving of locking operations with spends atomic, every balance equals the
   * customer's copy and the sum of its ledger, every row carries its prefix sum, and no
   * balance is ever negative.
   */
  lemma {:induction false} RunKeepsBooks(start: State, run: Run)
    requires StateInv(start) && Final(start, run).Some? && SpendsAreAtomic(start, run)
    ensures StateInv(Final(start, run).value)
  {
    if run.Then? {
      RunKeepsBooks(start, run.before);
      StepExact(Final(start, run.before).value, run.step);
    }
  }

  /** From customers without accounts: every balance is what its own history says it is. */
  lemma RunFromNothingAgrees(copies: map<string, int>, run: Run, customer: string)
    requires forall c :: c in copies ==> copies[c] == 0
    requires var start := State(Db(map[], copies, []), map[]);
      Final(start, run).Some? && SpendsAreAtomic(start, run)
      && customer in Final(start, run).value.db.accounts
    ensures var db := Final(State(Db(map[], copies, []), map[]), run).value.db;
      && customer in db.copies
      && var a := db.accounts[customer];
         a.balance == db.copies[customer] == Net(db.ledger, customer) == a.earned - a.spent >= 0
  {
    var start := State(Db(map[], copies, []), map[]);
    assert StateInv(start);
    RunKeepsBooks(start, run);
    BalancesAgree(Final(start, run).value.db, customer);
  }

  lemma {:induction false} RunKeepsRowsUnique(start: State, run: Run)
    requires StateInv(start) && Final(start, run).Some?
    ensures UniqueRows(Final(start, run).value.db.ledger)
  {
    if run.Then? {
      RunKeepsRowsUnique(start, run.before);
    }
  }

  /** However accruals are retried and interleaved, stale spends or not, one order earns at most once. */
  lemma RunEarnsAtMostOnce(start: State, run: Run, order: string)
    requires StateInv(start) && Final(start, run).Some?
    ensures EarnCount(Final(start, run).value.db.ledger, order) <= 1
  {
    RunKeepsRowsUnique(start, run);
    EarnsAtMostOnce(Final(start, run).value.db.ledger, order);
  }

  /** Every transaction of the run is a spend of this UTC day. */
  predicate SpendsOf(run: Run, day: int) {
    run.Then? ==>
      && SpendsOf(run.before, day)
      && (run.step.Begin? ==> run.step.op.SpendFor? && run.step.day == day)
  }

  /** Spends of one day in flight: each of a different tenant, each on a current balance. */
  ghost predicate OneDay(s: State, day: int) {
    && (forall t :: t in s.txs ==>
          var x := s.txs[t];
          && x.op.SpendFor? && x.day == day && x.customer in s.db.accounts
          && x.context == Some(s.db.accounts[x.customer].tenant) && x.read == s.db.accounts[x.customer].balance)
    && forall t, u :: t in s.txs && u in s.txs && t != u ==> s.txs[t].context != s.txs[u].context
  }

  lemma OneDayBegin(s: State, step: Step, day: int)
    requires StateInv(s) && OneDay(s, day) && step.Begin? && Enabled(s, step)
    requires step.op.SpendFor? && step.day == day
    ensures OneDay(Apply(s, step), day)
  {
    var admitted := Admit(s.db, step.context, step.customer, step.op);
    if admitted.Ok? && admitted.value.Some? { AdmittedRow(s.db, step.context, step.customer, step.op); }
  }

  lemma OneDayCommit(s: State, tx: nat, day: int)
    requires OneDay(s, day) && Enabled(s, Commit(tx))
    ensures !StaleSpend(s, Commit(tx)) && OneDay(Apply(s, Commit(tx)), day)
  {
    forall t | t in s.txs && t != tx ensures s.txs[t].customer != s.txs[tx].customer {
      assert s.txs[t].context != s.txs[tx].context;
    }
  }

  lemma OneDayStep(s: State, step: Step, day: int)
    requires StateInv(s) && OneDay(s, day) && Enabled(s, step)
    requires step.Begin? ==> step.op.SpendFor? && step.day == day
    ensures !StaleSpend(s, step) && OneDay(Apply(s, step), day)
  {
    match step
    case Begin(_, _, _, _, _) => OneDayBegin(s, step, day);
    case Commit(tx) => OneDayCommit(s, tx, day);
    case Open(_, _) =>
    case Abort(_) =>
  }

  /** The day's sequence is enough among checkouts: spends of one UTC day alone are never stale. */
  lemma {:induction false} SpendsOfOneDayAreSafe(start: State, run: Run, day: int)
    requires StateInv(start) && start.txs == map[] && Final(start, run).Some? && SpendsOf(run, day)
    ensures StateInv(Final(start, run).value) && OneDay(Final(start, run).value, day)
  {
    if run.Then? {
      SpendsOfOneDayAreSafe(start, run.before, day);
      var s := Final(start, run.before).value;
      OneDayStep(s, run.step, day);
      StepExact(s, run.step);
    }
  }

  /** Begin followed at once by Commit is the operation as the service runs it alone. */
  lemma AtomicIsBeginCommit(s: State, tx: nat, context: Option<string>, day: int, customer: string, op: Op)
    requires StateInv(s) && Enabled(s, Begin(tx, context, day, customer, op)) && !HeldByOther(s, tx, customer)
    ensures var begun := Apply(s, Begin(tx, context, day, customer, op));
      if tx in begun.txs then
        && Enabled(begun, Commit(tx)) && !StaleSpend(begun, Commit(tx))
        && Apply(begun, Commit(tx)) == s.(db := Performed(s.db, context, customer, op))
      else
        begun.db == Performed(s.db, context, customer, op) == s.db
  {
    var begun := Apply(s, Begin(tx, context, day, customer, op));
    if tx in begun.txs {
      AdmittedRow(s.db, context, customer, op);
      assert begun.txs - {tx} == s.txs;
      assert !HeldByOther(begun, tx, customer);
    }
  }

  /** A stale spend leaves the balance off its ledger by exactly what was posted in between. */
  lemma StaleSpendDrift(s: State, tx: nat)
    requires StateInv(s) && Enabled(s, Commit(tx)) && StaleSpend(s, Commit(tx))
    ensures var t, after := s.txs[tx], Apply(s, Commit(tx)).db;
      after.accounts[t.customer].balance - Net(after.ledger, t.customer) == t.read - s.db.accounts[t.customer].balance
  {
    var t := s.txs[tx];
    assert Reconciled(s.db, t.customer);
    var row := RowFor(t.customer, t.op, t.read);
    assert (s.db.ledger + [row])[..|s.db.ledger|] == s.db.ledger;
  }

  /** A spend whose account is adjusted between its read and its write. */
  function Overtaken(
    context: Option<string>, day: int, customer: string, order: string, amount: int, change: int): Run
  {
    Then(Then(Then(Then(Start,
      Begin(0, context, day, customer, SpendFor(order, amount))),
      Begin(1, context, day, customer, Adjust(change))),
      Commit(1)),
      Commit(0))
  }

  lemma Extend(start: State, run: Run, s: State, step: Step)
    requires Final(start, run) == Some(s) && Enabled(s, step)
    ensures Final(start, Then(run, step)) == Some(Apply(s, step))
  {
  }

  lemma BothWrite(s: State, first: Row, second: Row)
    requires first.customer == second.customer && first.customer in s.db.accounts
    ensures var db := Posted(Posted(s.db, first), second);
      && db.accounts[first.customer].balance == second.balanceAfter
      && Net(db.ledger, first.customer) == Net(s.db.ledger, first.customer) + first.amount + second.amount
  {
    var once := s.db.ledger + [first];
    assert once[..|s.db.ledger|] == s.db.ledger;
    assert (once + [second])[..|once|] == once;
  }

  /** Read for the spend, read for the adjustment, and the adjustment committed. */
  lemma AdjustedMeanwhile(
    s: State, context: Option<string>, day: int, customer: string, order: string, amount: int, change: int,
    balance: int)
    requires s.txs == map[] && Load(s.db, context, customer) == Ok(balance)
    requires 0 < amount <= balance && change != 0 && balance + change >= 0
    ensures var spend := Tx(context, day, customer, SpendFor(order, amount), balance);
      Final(s, Overtaken(context, day, customer, order, amount, change).before)
      == Some(State(Posted(s.db, RowFor(customer, Adjust(change), balance)), map[0 := spend]))
  {
    var run := Overtaken(context, day, customer, order, amount, change).before;
    var spend := Tx(context, day, customer, SpendFor(order, amount), balance);
    var adjust := Tx(context, day, customer, Adjust(change), balance);
    var reading := s.(txs := map[0 := spend]);
    Extend(s, Start, s, Begin(0, context, day, customer, SpendFor(order, amount)));
    assert Final(s, run.before.before) == Some(reading);
    Extend(s, run.before.before, reading, Begin(1, context, day, customer, Adjust(change)));
    assert Final(s, run.before) == Some(s.(txs := map[0 := spend, 1 := adjust]));
    Extend(s, run.before, s.(txs := map[0 := spend, 1 := adjust]), Commit(1));
    assert map[0 := spend, 1 := adjust] - {1} == map[0 := spend];
  }

  /**
   * In every good state a checkout may be overtaken by an adjustment: the adjustment stays in the
   * ledger and is lost from the balance. A deduction then lets more be spent than was there.
   */
  lemma StaleSpendLosesAdjustment(
    s: State, context: Option<string>, day: int, customer: string, order: string, amount: int, change: int)
    requires StateInv(s) && s.txs == map[]
    requires Load(s.db, context, customer).Ok? && 0 < amount <= s.db.accounts[customer].balance
    requires change != 0 && s.db.accounts[customer].balance + change >= 0
    requires !RowExists(s.db.ledger, order, Spend)
    ensures var end := Final(s, Overtaken(context, day, customer, order, amount, change));
      var balance := s.db.accounts[customer].balance;
      && end.Some? && Cached(end.value.db, customer) == balance - amount
      && Net(end.value.db.ledger, customer) == balance + change - amount
  {
    var balance := s.db.accounts[customer].balance;
    assert Reconciled(s.db, customer);
    AdjustedMeanwhile(s, context, day, customer, order, amount, change, balance);
    var row, row' := RowFor(customer, Adjust(change), balance), RowFor(customer, SpendFor(order, amount), balance);
    var spend := Tx(context, day, customer, SpendFor(order, amount), balance);
    var mid := State(Posted(s.db, row), map[0 := spend]);
    SpendStillUnique(s.db, row, customer, order, amount, balance);
    Extend(s, Overtaken(context, day, customer, order, amount, change).before, mid, Commit(0));
    BothWrite(s, row, row');
  }

  lemma SpendStillUnique(db: Db, row: Row, customer: string, order: string, amount: int, read: int)
    requires row.customer in db.accounts && row.order.None? && !RowExists(db.ledger, order, Spend)
    ensures !Violates(Posted(db, row).ledger, RowFor(customer, SpendFor(order, amount), read))
  {
  }
}
