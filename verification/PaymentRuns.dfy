/**
 * Payments as the separate statements they are. A webhook inserts its dedup row, reads the payment
 * without a lock, and writes what follows from that read; an intent applied outside a webhook does
 * the same without the row. Creating a payment stores it as PENDING, asks the provider, and then
 * writes its state a second time. Other transactions may commit in between; one that inserts the
 * same dedup key waits.
 */
module PaymentRuns {
  import opened Payments
  import opened Wrappers

  /** An intent that found a transition to make, and the payment row it saw. */
  datatype Pending = Pending(op: Op, id: nat, seen: Payment)

  /** `opening` holds the payments created and not yet written the second time. */
  datatype Traffic = Traffic(db: Db, pending: map<nat, Pending>, opening: set<nat>)

  /** Whole runs an operation with nothing in between. */
  datatype Step =
    | Whole(op: Op)
    | Begin(tx: nat, op: Op)
    | Finish(tx: nat)
    | Abort(tx: nat)
    | Create(id: nat, order: Option<nat>, booking: Option<nat>, amount: int)
    | Confirm(id: nat, externalId: Option<nat>, settled: bool)

  predicate Intends(op: Op) { !op.Opened? }

  function IntentOf(op: Op): Intent
    requires Intends(op)
  {
    if op.Hook? then op.delivery.intent else op.intent
  }

  function PaymentOf(op: Op): Option<nat>
    requires Intends(op)
  {
    if op.Hook? then op.delivery.payment else Some(op.payment)
  }

  function Recorded(db: Db, op: Op): Db {
    if op.Hook? then db.(processed := db.processed[op.delivery.key := op.delivery.response]) else db
  }

  predicate InFlight(s: Traffic, key: DedupKey) {
    exists t :: t in s.pending && s.pending[t].op.Hook? && s.pending[t].op.delivery.key == key
  }

  predicate KeyFree(s: Traffic, op: Op) {
    op.Hook? ==> !InFlight(s, op.delivery.key)
  }

  /** A payment that settles at once is created and confirmed, never opened whole. */
  predicate Enabled(s: Traffic, step: Step) {
    match step
    case Whole(op) => KeyFree(s, op) && !SettlesAtOnce(op)
    case Begin(tx, op) => tx !in s.pending && Intends(op) && KeyFree(s, op)
    case Finish(tx) =>
      && tx in s.pending && s.pending[tx].id in s.db.payments
      && Intends(s.pending[tx].op) && !IntentOf(s.pending[tx].op).Noop?
    case Abort(tx) => tx in s.pending
    case Create(id, _, _, _) => id !in s.db.payments
    case Confirm(id, _, _) => id in s.opening && id in s.db.payments
  }

  /** There is a transition to make, of a payment that exists. */
  predicate HasWork(db: Db, op: Op)
    requires Intends(op)
  {
    && (op.Hook? ==> op.delivery.key !in db.processed)
    && PaymentOf(op).Some? && PaymentOf(op).value in db.payments
    && Real(db, PaymentOf(op).value, IntentOf(op))
  }

  /** The row written from the one seen; only an old failure reason is left as it is now. */
  function Rewritten(now: Payment, seen: Payment, intent: Intent, next: PayState): Payment {
    Updated(seen, intent, next).(
      failureReason := if intent.MarkFailed? then Some(intent.reason) else now.failureReason)
  }

  predicate Writable(db: Db, p: Pending) {
    p.id in db.payments && Intends(p.op) && !IntentOf(p.op).Noop?
  }

  /** The writes of a transition decided on an earlier read, with the dedup row. */
  function WriteSeen(db: Db, p: Pending): Result<Db, Error>
    requires Writable(db, p)
  {
    var intent, next := IntentOf(p.op), StateFor(IntentOf(p.op)).value;
    match Transition(Recorded(db, p.op), p.id, intent, next)
    case Err(e) => Err(e)
    case Ok(after) =>
      Ok(after.(payments := after.payments[p.id := Rewritten(db.payments[p.id], p.seen, intent, next)]))
  }

  function SettledState(settled: bool): PayState { if settled then PAID else PENDING }

  /** The second write of a new payment, which does not look at what the row has become. */
  function Confirmed(db: Db, id: nat, externalId: Option<nat>, settled: bool): Db
    requires id in db.payments
  {
    var p := db.payments[id];
    db.(payments := db.payments[id := p.(
          state := SettledState(settled),
          externalId := if externalId.Some? then externalId else p.externalId)])
  }

  function Apply(s: Traffic, step: Step): Traffic
    requires Enabled(s, step)
  {
    match step
    case Whole(op) => s.(db := Committed(s.db, Perform(s.db, op)))
    case Begin(tx, op) =>
      if HasWork(s.db, op) then
        s.(pending := s.pending[tx := Pending(op, PaymentOf(op).value, s.db.payments[PaymentOf(op).value])])
      else s.(db := Committed(s.db, Perform(s.db, op)))
    case Finish(tx) => s.(db := Committed(s.db, WriteSeen(s.db, s.pending[tx])), pending := s.pending - {tx})
    case Abort(tx) => s.(pending := s.pending - {tx})
    case Create(id, order, booking, amount) =>
      s.(db := Committed(s.db, Open(s.db, id, order, booking, amount, false)), opening := s.opening + {id})
    case Confirm(id, externalId, settled) =>
      s.(db := Confirmed(s.db, id, externalId, settled), opening := s.opening - {id})
  }

  // ── exactly when histories survive ──

  /** What an earlier read can be relied on for: the payment's identity and amount never change. */
  ghost predicate StillTheRow(db: Db, p: Pending) {
    && Writable(db, p)
    && p.seen.amount == db.payments[p.id].amount && p.seen.order == db.payments[p.id].order
    && p.seen.booking == db.payments[p.id].booking
    && Allowed(p.seen.state, StateFor(IntentOf(p.op)).value)
    && (IntentOf(p.op).MarkPaid? ==> IntentOf(p.op).amount == p.seen.amount)
  }

  ghost predicate RowsHold(s: Traffic) {
    forall t :: t in s.pending ==> StillTheRow(s.db, s.pending[t])
  }

  ghost predicate Inv(s: Traffic) { Histories(s.db) && RowsHold(s) }

  /** The write commits although the payment has moved to a state that no longer allows it. */
  predicate Overtaken(s: Traffic, step: Step) {
    && step.Finish? && Enabled(s, step)
    && var p := s.pending[step.tx];
       && WriteSeen(s.db, p).Ok?
       && !Allowed(s.db.payments[p.id].state, StateFor(IntentOf(p.op)).value)
  }

  /** The second write of a new payment gives it a state that it is not in. */
  predicate Resets(s: Traffic, step: Step) {
    step.Confirm? && Enabled(s, step) && s.db.payments[step.id].state != SettledState(step.settled)
  }

  lemma SameStates(db: Db, other: Db)
    requires db.log == other.log && db.outbox == other.outbox && db.payments.Keys == other.payments.Keys
    requires forall id :: id in db.payments ==>
      db.payments[id].state == other.payments[id].state && db.payments[id].amount == other.payments[id].amount
    ensures Histories(db) <==> Histories(other)
  {
    if Histories(db) {
      forall id | id in other.payments ensures History(other, id) { assert History(db, id); }
      forall id | id !in other.payments ensures Unmentioned(other, id) { assert Unmentioned(db, id); }
    }
    if Histories(other) {
      forall id | id in db.payments ensures History(db, id) { assert History(other, id); }
      forall id | id !in db.payments ensures Unmentioned(db, id) { assert Unmentioned(other, id); }
    }
  }

  /** A transition keeps histories exactly when the state it finds allows it. */
  lemma TransitionExact(db: Db, id: nat, intent: Intent)
    requires Histories(db) && id in db.payments && !intent.Noop?
    requires intent.MarkPaid? ==> intent.amount == db.payments[id].amount
    requires Transition(db, id, intent, StateFor(intent).value).Ok?
    ensures Histories(Transition(db, id, intent, StateFor(intent).value).value)
      <==> Allowed(db.payments[id].state, StateFor(intent).value)
  {
    var after := Transition(db, id, intent, StateFor(intent).value).value;
    if Allowed(db.payments[id].state, StateFor(intent).value) {
      TransitionKeepsHistories(db, id, intent);
    } else {
      assert History(db, id);
      AppendEffects(db.log, LogEntry(id, intent), db.outbox, EventFor(id, db.payments[id], intent), id);
      assert after.log == db.log + [LogEntry(id, intent)] && Follow(after.log, id) == None;
      assert !History(after, id);
    }
  }

  lemma WriteSeenExact(db: Db, p: Pending)
    requires Histories(db) && StillTheRow(db, p) && WriteSeen(db, p).Ok?
    ensures Histories(WriteSeen(db, p).value)
      <==> Allowed(db.payments[p.id].state, StateFor(IntentOf(p.op)).value)
  {
    var intent, recorded := IntentOf(p.op), Recorded(db, p.op);
    SameStates(db, recorded);
    TransitionExact(recorded, p.id, intent);
    SameStates(Transition(recorded, p.id, intent, StateFor(intent).value).value, WriteSeen(db, p).value);
  }

  /** Writing a state by itself keeps histories exactly when the payment is in that state already. */
  lemma ConfirmExact(db: Db, id: nat, externalId: Option<nat>, settled: bool)
    requires Histories(db) && id in db.payments
    ensures Histories(Confirmed(db, id, externalId, settled)) <==> db.payments[id].state == SettledState(settled)
  {
    var after := Confirmed(db, id, externalId, settled);
    assert History(db, id);
    if db.payments[id].state == SettledState(settled) {
      SameStates(db, after);
    } else {
      assert !History(after, id);
    }
  }

  /** Every operation keeps payments, what they are for, and how much. */
  ghost predicate KeepsRows(db: Db, after: Db) {
    && db.payments.Keys <= after.payments.Keys
    && forall id :: id in db.payments ==>
         var p, q := db.payments[id], after.payments[id];
         q.amount == p.amount && q.order == p.order && q.booking == p.booking
  }

  lemma PerformKeepsRows(db: Db, op: Op)
    ensures KeepsRows(db, Committed(db, Perform(db, op)))
  {
  }

  lemma WriteSeenKeepsRows(db: Db, p: Pending)
    requires StillTheRow(db, p) && WriteSeen(db, p).Ok?
    ensures KeepsRows(db, WriteSeen(db, p).value)
  {
  }

  lemma RowsStay(s: Traffic, after: Traffic)
    requires RowsHold(s) && KeepsRows(s.db, after.db)
    requires forall t :: t in after.pending ==> t in s.pending && after.pending[t] == s.pending[t]
    ensures forall t :: t in after.pending ==> StillTheRow(after.db, after.pending[t])
  {
  }

  lemma BeginExact(s: Traffic, tx: nat, op: Op)
    requires Inv(s) && Enabled(s, Begin(tx, op))
    ensures Inv(Apply(s, Begin(tx, op)))
  {
    if !HasWork(s.db, op) {
      PerformKeepsHistories(s.db, op);
      PerformKeepsRows(s.db, op);
      RowsStay(s, Apply(s, Begin(tx, op)));
    }
  }

  lemma FinishExact(s: Traffic, tx: nat)
    requires Inv(s) && Enabled(s, Finish(tx))
    ensures Inv(Apply(s, Finish(tx))) <==> !Overtaken(s, Finish(tx))
  {
    var p := s.pending[tx];
    assert StillTheRow(s.db, p);
    if WriteSeen(s.db, p).Ok? {
      WriteSeenExact(s.db, p);
      WriteSeenKeepsRows(s.db, p);
      RowsStay(s, Apply(s, Finish(tx)));
    }
  }

  /** A step keeps every history exactly when it is neither an overtaken write nor a reset. */
  lemma StepExact(s: Traffic, step: Step)
    requires Inv(s) && Enabled(s, step)
    ensures Inv(Apply(s, step)) <==> !Overtaken(s, step) && !Resets(s, step)
  {
    match step
    case Whole(op) =>
      PerformKeepsHistories(s.db, op);
      PerformKeepsRows(s.db, op);
      RowsStay(s, Apply(s, step));
    case Begin(tx, op) => BeginExact(s, tx, op);
    case Finish(tx) => FinishExact(s, tx);
    case Abort(_) =>
    case Create(id, order, booking, amount) =>
      PerformKeepsHistories(s.db, Opened(id, order, booking, amount, false));
      PerformKeepsRows(s.db, Opened(id, order, booking, amount, false));
      RowsStay(s, Apply(s, step));
    case Confirm(id, externalId, settled) =>
      ConfirmExact(s.db, id, externalId, settled);
      RowsStay(s, Apply(s, step));
  }

  datatype Run = Start | Then(before: Run, step: Step)

  function Final(start: Traffic, run: Run): Option<Traffic> {
    match run
    case Start => Some(start)
    case Then(before, step) =>
      match Final(start, before)
      case None => None
      case Some(s) => if Enabled(s, step) then Some(Apply(s, step)) else None
  }

  ghost predicate NeverOvertaken(start: Traffic, run: Run) {
    run.Then? ==>
      && NeverOvertaken(start, run.before)
      && var s := Final(start, run.before);
         s.Some? ==> !Overtaken(s.value, run.step) && !Resets(s.value, run.step)
  }

  /**
   * In every interleaving in which no write is overtaken and no new payment is reset, every payment
   * has a correct history.
   */
  lemma {:induction false} RunKeepsHistories(start: Traffic, run: Run)
    requires Inv(start) && Final(start, run).Some? && NeverOvertaken(start, run)
    ensures Inv(Final(start, run).value)
  {
    if run.Then? {
      RunKeepsHistories(start, run.before);
      StepExact(Final(start, run.before).value, run.step);
    }
  }

  // ── an order's payment status ──

  lemma StepKeepsRows(s: Traffic, step: Step)
    requires RowsHold(s) && Enabled(s, step)
    ensures RowsHold(Apply(s, step))
  {
    match step
    case Whole(op) => PerformKeepsRows(s.db, op); RowsStay(s, Apply(s, step));
    case Begin(_, op) =>
      if !HasWork(s.db, op) {
        PerformKeepsRows(s.db, op);
        RowsStay(s, Apply(s, step));
      }
    case Finish(tx) =>
      if WriteSeen(s.db, s.pending[tx]).Ok? { WriteSeenKeepsRows(s.db, s.pending[tx]); }
      RowsStay(s, Apply(s, step));
    case Abort(_) =>
    case Create(id, order, booking, amount) =>
      PerformKeepsRows(s.db, Opened(id, order, booking, amount, false));
      RowsStay(s, Apply(s, step));
    case Confirm(_, _, _) => RowsStay(s, Apply(s, step));
  }

  lemma WriteSeenKeepsOrders(first: map<nat, OrderRow>, db: Db, p: Pending)
    requires OrdersAsAsked(first, db) && StillTheRow(db, p) && WriteSeen(db, p).Ok?
    ensures OrdersAsAsked(first, WriteSeen(db, p).value)
  {
    var intent, recorded := IntentOf(p.op), Recorded(db, p.op);
    var moved := Transition(recorded, p.id, intent, StateFor(intent).value).value;
    OrdersAsAskedStill(first, db, recorded);
    TransitionEffects(recorded, p.id, intent);
    EffectsKeepOrders(first, recorded, moved, p.id, intent);
    OrdersAsAskedStill(first, moved, WriteSeen(db, p).value);
  }

  lemma StepKeepsOrders(first: map<nat, OrderRow>, s: Traffic, step: Step)
    requires OrdersAsAsked(first, s.db) && RowsHold(s) && Enabled(s, step)
    ensures OrdersAsAsked(first, Apply(s, step).db)
  {
    match step
    case Whole(op) => PerformKeepsOrders(first, s.db, op);
    case Begin(_, op) => if !HasWork(s.db, op) { PerformKeepsOrders(first, s.db, op); }
    case Finish(tx) => if WriteSeen(s.db, s.pending[tx]).Ok? { WriteSeenKeepsOrders(first, s.db, s.pending[tx]); }
    case Abort(_) =>
    case Create(id, order, booking, amount) =>
      PerformKeepsOrders(first, s.db, Opened(id, order, booking, amount, false));
    case Confirm(_, _, _) => OrdersAsAskedStill(first, s.db, Apply(s, step).db);
  }

  /**
   * Over every run, overtaken writes and resets included, an order's payment status is the one that
   * the last log entry for any of its payments asks for, or the one it started with.
   */
  lemma {:induction false} RunKeepsOrders(first: map<nat, OrderRow>, start: Traffic, run: Run)
    requires OrdersAsAsked(first, start.db) && RowsHold(start) && Final(start, run).Some?
    ensures OrdersAsAsked(first, Final(start, run).value.db) && RowsHold(Final(start, run).value)
  {
    if run.Then? {
      RunKeepsOrders(first, start, run.before);
      StepKeepsOrders(first, Final(start, run.before).value, run.step);
      StepKeepsRows(Final(start, run.before).value, run.step);
    }
  }

  /** Reading and writing at once is the service's own operation. */
  lemma BeginFinishIsPerform(s: Traffic, tx: nat, op: Op)
    requires Enabled(s, Begin(tx, op))
    ensures var begun := Apply(s, Begin(tx, op));
      if tx in begun.pending then
        && Enabled(begun, Finish(tx)) && !Overtaken(begun, Finish(tx))
        && Apply(begun, Finish(tx)) == s.(db := Committed(s.db, Perform(s.db, op)))
      else
        begun == s.(db := Committed(s.db, Perform(s.db, op)))
  {
    var begun := Apply(s, Begin(tx, op));
    if tx in begun.pending {
      assert begun.pending - {tx} == s.pending;
      WriteSeenIsPerform(s.db, begun.pending[tx]);
    }
  }

  lemma WriteSeenIsPerform(db: Db, p: Pending)
    requires Intends(p.op) && HasWork(db, p.op)
    requires p == Pending(p.op, PaymentOf(p.op).value, db.payments[PaymentOf(p.op).value])
    ensures WriteSeen(db, p) == Perform(db, p.op)
  {
    var intent, next := IntentOf(p.op), StateFor(IntentOf(p.op)).value;
    var moved := Transition(Recorded(db, p.op), p.id, intent, next);
    assert Perform(db, p.op) == moved;
    if moved.Ok? {
      assert moved.value.payments[p.id] == Rewritten(db.payments[p.id], p.seen, intent, next);
      assert moved.value.payments[p.id := moved.value.payments[p.id]] == moved.value.payments;
    }
  }

  /**
   * An overtaken write makes of the payment what the intent makes of the one that was read, the
   * failure reason apart, which is only touched by a failure; no other payment changes.
   */
  lemma WriteSeenMoves(db: Db, p: Pending)
    requires Writable(db, p) && WriteSeen(db, p).Ok?
    ensures var after, intent := WriteSeen(db, p).value, IntentOf(p.op);
      && after.payments.Keys == db.payments.Keys
      && PaymentMoved(p.seen.(failureReason := db.payments[p.id].failureReason), after.payments[p.id], intent)
      && (forall id :: id in db.payments && id != p.id ==> after.payments[id] == db.payments[id])
      && OrdersMoved(db.payments[p.id], intent, db.orders, after.orders)
      && BookingsMoved(db.payments[p.id], intent, db.bookings, after.bookings)
  {
  }

  /** Begun and rolled back, an operation leaves no trace. */
  lemma AbortLeavesNothing(s: Traffic, tx: nat, op: Op)
    requires Enabled(s, Begin(tx, op)) && HasWork(s.db, op)
    ensures Enabled(Apply(s, Begin(tx, op)), Abort(tx)) && Apply(Apply(s, Begin(tx, op)), Abort(tx)) == s
  {
    assert Apply(s, Begin(tx, op)).pending - {tx} == s.pending;
  }

  /**
   * Created and confirmed at once, with the intent of one settled at once to follow, is opening it;
   * the provider's own id is stored besides.
   */
  lemma CreateConfirmIsOpen(s: Traffic, id: nat, order: Option<nat>, booking: Option<nat>, amount: int, settled: bool)
    requires id !in s.db.payments && id !in s.opening
    ensures var created := Apply(s, Create(id, order, booking, amount));
      && Enabled(created, Confirm(id, None, settled))
      && var confirmed := Apply(created, Confirm(id, None, settled));
         && confirmed.pending == s.pending && confirmed.opening == s.opening
         && (if settled then ApplyIntent(confirmed.db, id, MarkPaid(id, amount, 0)) else Ok(confirmed.db))
            == Open(s.db, id, order, booking, amount, settled)
         && forall e :: Apply(created, Confirm(id, e, settled)).db
              == confirmed.db.(payments := confirmed.db.payments[id := confirmed.db.payments[id].(externalId := e)])
  {
    var confirmed := Apply(Apply(s, Create(id, order, booking, amount)), Confirm(id, None, settled));
    assert confirmed.opening == s.opening;
    var p := Payment(SettledState(settled), amount, order, booking, None, None, None, 0);
    assert confirmed.db.payments == s.db.payments[id := p];
  }

  // ── every key commits once ──

  /** The dedup keys of transactions in flight are new, and each is held by one of them. */
  ghost predicate KeysHeld(s: Traffic) {
    && (forall t :: t in s.pending && s.pending[t].op.Hook? ==> s.pending[t].op.delivery.key !in s.db.processed)
    && forall t, u ::
         t in s.pending && u in s.pending && t != u && s.pending[t].op.Hook? && s.pending[u].op.Hook?
         ==> s.pending[t].op.delivery.key != s.pending[u].op.delivery.key
  }

  function KeyIf(op: Op, committed: bool): seq<DedupKey> {
    if op.Hook? && committed then [op.delivery.key] else []
  }

  /** The dedup key a step commits, if it commits one. */
  function KeyOf(s: Traffic, step: Step): seq<DedupKey>
    requires Enabled(s, step)
  {
    match step
    case Whole(op) => KeyIf(op, Perform(s.db, op).Ok?)
    case Begin(_, op) => KeyIf(op, !HasWork(s.db, op) && Perform(s.db, op).Ok?)
    case Finish(tx) => KeyIf(s.pending[tx].op, WriteSeen(s.db, s.pending[tx]).Ok?)
    case _ => []
  }

  /** Committing records the key of the delivery and no other. */
  lemma PerformKeys(db: Db, op: Op)
    ensures Committed(db, Perform(db, op)).processed.Keys
      == db.processed.Keys + set k | k in KeyIf(op, Perform(db, op).Ok?)
    ensures forall k :: k in KeyIf(op, Perform(db, op).Ok?) ==> k !in db.processed
  {
  }

  lemma StepKeys(s: Traffic, step: Step)
    requires KeysHeld(s) && Enabled(s, step)
    ensures KeysHeld(Apply(s, step))
    ensures Apply(s, step).db.processed.Keys == s.db.processed.Keys + set k | k in KeyOf(s, step)
    ensures |KeyOf(s, step)| <= 1 && forall k :: k in KeyOf(s, step) ==> k !in s.db.processed
  {
    match step
    case Whole(op) => PerformKeys(s.db, op);
    case Begin(_, op) => if !HasWork(s.db, op) { PerformKeys(s.db, op); }
    case _ =>
  }

  /** The dedup keys committed along a run, in order. */
  function KeysCommitted(start: Traffic, run: Run): seq<DedupKey> {
    if run.Start? then []
    else
      var s := Final(start, run.before);
      KeysCommitted(start, run.before)
      + if s.Some? && Enabled(s.value, run.step) then KeyOf(s.value, run.step) else []
  }

  /**
   * Duplicate elimination over split transactions: whatever interleaves, no dedup key is committed
   * twice nor was processed at the start, and the keys processed are exactly those and the old ones.
   */
  lemma {:induction false} RunCommitsKeysOnce(start: Traffic, run: Run)
    requires KeysHeld(start) && Final(start, run).Some?
    ensures KeysHeld(Final(start, run).value)
    ensures var keys := KeysCommitted(start, run);
      && (forall i, j :: 0 <= i < j < |keys| ==> keys[i] != keys[j])
      && (forall k :: k in keys ==> k !in start.db.processed)
      && Final(start, run).value.db.processed.Keys == start.db.processed.Keys + set k | k in keys
  {
    if run.Then? {
      RunCommitsKeysOnce(start, run.before);
      var s := Final(start, run.before).value;
      StepKeys(s, run.step);
      var keys, more := KeysCommitted(start, run.before), KeyOf(s, run.step);
      assert forall i :: 0 <= i < |keys| ==> keys[i] in keys;
      assert forall i :: 0 <= i < |more| ==> more[i] in more;
    }
  }

  // ── runs that go wrong ──

  lemma Extend(start: Traffic, run: Run, s: Traffic, step: Step)
    requires Final(start, run) == Some(s) && Enabled(s, step)
    ensures Final(start, Then(run, step)) == Some(Apply(s, step))
  {
  }

  function TwoDeliveries(first: Op, second: Op): Run {
    Then(Then(Then(Then(Start, Begin(0, first)), Begin(1, second)), Finish(0)), Finish(1))
  }

  predicate Pays(op: Op, id: nat) { Intends(op) && PaymentOf(op) == Some(id) && IntentOf(op).MarkPaid? }

  predicate DifferentKeys(a: Op, b: Op) { a.Hook? && b.Hook? ==> a.delivery.key != b.delivery.key }

  lemma BothRead(s: Traffic, id: nat, first: Op, second: Op, p: Pending, q: Pending)
    requires s.pending == map[] && DifferentKeys(first, second)
    requires Pays(first, id) && Pays(second, id) && HasWork(s.db, first) && HasWork(s.db, second)
    requires p == Pending(first, id, s.db.payments[id]) && q == Pending(second, id, s.db.payments[id])
    ensures Final(s, TwoDeliveries(first, second).before.before) == Some(s.(pending := map[0 := p, 1 := q]))
  {
    var run := TwoDeliveries(first, second).before.before;
    Extend(s, Start, s, Begin(0, first));
    Extend(s, run.before, s.(pending := map[0 := p]), Begin(1, second));
  }

  /** Two provider transactions, or one and a staff member, that both read one payment as not yet paid. */
  lemma PaidTwice(s: Traffic, id: nat, first: Op, second: Op)
    requires Inv(s) && s.pending == map[] && DifferentKeys(first, second)
    requires Pays(first, id) && Pays(second, id) && HasWork(s.db, first) && HasWork(s.db, second)
    requires Perform(s.db, first).Ok?
    ensures var end := Final(s, TwoDeliveries(first, second));
      end.Some? && Count(end.value.db.outbox, id, true) == 2
  {
    var p, q := Pending(first, id, s.db.payments[id]), Pending(second, id, s.db.payments[id]);
    var run := TwoDeliveries(first, second).before.before;
    BothRead(s, id, first, second, p, q);
    WriteSeenIsPerform(s.db, p);
    var once := WriteSeen(s.db, p).value;
    assert map[0 := p, 1 := q] - {0} == map[1 := q];
    Extend(s, run, s.(pending := map[0 := p, 1 := q]), Finish(0));
    PaidOnce(s.db, p, q);
    Extend(s, Then(run, Finish(0)), Traffic(once, map[1 := q], s.opening), Finish(1));
    assert History(s.db, id);
  }

  lemma PaidOnce(db: Db, p: Pending, q: Pending)
    requires p.id == q.id && p.seen == q.seen && Writable(db, p) && Writable(db, q)
    requires IntentOf(p.op).MarkPaid? && IntentOf(q.op).MarkPaid? && WriteSeen(db, p).Ok?
    requires p.seen == db.payments[p.id]
    ensures var once := WriteSeen(db, p).value;
      && Writable(once, q) && WriteSeen(once, q).Ok?
      && Count(WriteSeen(once, q).value.outbox, p.id, true) == Count(db.outbox, p.id, true) + 2
  {
    var once := WriteSeen(db, p).value;
    WriteSeenAnnounces(db, p);
    WriteSeenAnnounces(once, q);
  }

  lemma WriteSeenAnnounces(db: Db, p: Pending)
    requires Writable(db, p) && IntentOf(p.op).MarkPaid? && WriteSeen(db, p).Ok?
    ensures Count(WriteSeen(db, p).value.outbox, p.id, true) == Count(db.outbox, p.id, true) + 1
  {
    assert WriteSeen(db, p).value.outbox[..|db.outbox|] == db.outbox;
  }

  /** Created, paid before it is confirmed, confirmed as pending, and paid again. */
  function PaidWhileOpening(id: nat, amount: int, first: Op, externalId: Option<nat>, second: Op): Run {
    Then(Then(Then(Then(Start,
      Create(id, None, None, amount)),
      Whole(first)),
      Confirm(id, externalId, false)),
      Whole(second))
  }

  /** What a payment looks like once a delivery has paid it and its second write has reset it. */
  ghost predicate PaidAndReset(s: Traffic, id: nat, amount: int) {
    && s.pending == map[] && id in s.db.payments && s.db.payments[id].state == PENDING
    && s.db.payments[id].order.None? && s.db.payments[id].booking.None? && s.db.payments[id].amount == amount
    && Follow(s.db.log, id) == Some(PAID) && Count(s.db.outbox, id, true) == 1
  }

  lemma FirstPays(db: Db, id: nat, amount: int, op: Op)
    requires id in db.payments && Pays(op, id) && IntentOf(op).amount == amount
    requires db.payments[id].state == PENDING && db.payments[id].amount == amount
    requires db.payments[id].order.None? && db.payments[id].booking.None?
    requires op.Hook? ==> op.delivery.key !in db.processed
    ensures Perform(db, op)
      == Ok(Recorded(db, op).(
              payments := db.payments[id := Updated(db.payments[id], IntentOf(op), PAID)],
              log := db.log + [LogEntry(id, IntentOf(op))],
              outbox := db.outbox + [EventFor(id, db.payments[id], IntentOf(op))]))
  {
  }

  lemma AnnouncedAgain(db: Db, id: nat, op: Op)
    requires id in db.payments && Pays(op, id) && IntentOf(op).amount == db.payments[id].amount
    requires db.payments[id].state == PENDING && db.payments[id].order.None? && db.payments[id].booking.None?
    requires op.Hook? ==> op.delivery.key !in db.processed
    ensures Perform(db, op).Ok?
    ensures Count(Perform(db, op).value.outbox, id, true) == Count(db.outbox, id, true) + 1
  {
    var after := Perform(db, op).value;
    assert after.outbox[..|db.outbox|] == db.outbox;
  }

  lemma UntilReset(s: Traffic, id: nat, amount: int, first: Op, externalId: Option<nat>) returns (run: Run, t: Traffic)
    requires Inv(s) && s.pending == map[] && id !in s.db.payments
    requires Pays(first, id) && IntentOf(first).amount == amount
    requires first.Hook? ==> first.delivery.key !in s.db.processed
    ensures run == Then(Then(Then(Start, Create(id, None, None, amount)), Whole(first)), Confirm(id, externalId, false))
    ensures Final(s, run) == Some(t) && PaidAndReset(t, id, amount)
    ensures t.db.processed.Keys == s.db.processed.Keys + set k | k in KeyIf(first, true)
  {
    var create, whole := Create(id, None, None, amount), Whole(first);
    Extend(s, Start, s, create);
    StepExact(s, create);
    var created := Apply(s, create);
    FirstPays(created.db, id, amount, first);
    PerformKeepsHistories(created.db, first);
    Extend(s, Then(Start, create), created, whole);
    var paid := Apply(created, whole);
    assert History(paid.db, id);
    Extend(s, Then(Then(Start, create), whole), paid, Confirm(id, externalId, false));
    t := Apply(paid, Confirm(id, externalId, false));
    run := Then(Then(Then(Start, create), whole), Confirm(id, externalId, false));
  }

  /**
   * A delivery that pays a new payment before its second write: the log and the outbox say paid, the
   * row says PENDING, and a delivery under another key announces success again.
   */
  lemma ResetPaymentPaidTwice(s: Traffic, id: nat, amount: int, first: Op, externalId: Option<nat>, second: Op)
    requires Inv(s) && s.pending == map[] && id !in s.db.payments
    requires Pays(first, id) && Pays(second, id) && DifferentKeys(first, second)
    requires IntentOf(first).amount == amount && IntentOf(second).amount == amount
    requires first.Hook? ==> first.delivery.key !in s.db.processed
    requires second.Hook? ==> second.delivery.key !in s.db.processed
    ensures var run := PaidWhileOpening(id, amount, first, externalId, second);
      && Final(s, run.before).Some? && PaidAndReset(Final(s, run.before).value, id, amount)
      && Final(s, run).Some? && Count(Final(s, run).value.db.outbox, id, true) == 2
  {
    var run, t := UntilReset(s, id, amount, first, externalId);
    AnnouncedAgain(t.db, id, second);
    Extend(s, run, t, Whole(second));
  }
}
