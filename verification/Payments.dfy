/** apps/api/src/modules/payments/payments.service.ts: the webhook pipeline and the payment state machine. */
module Payments {
  import opened Wrappers

  datatype PayState =
    PENDING | PROCESSING | PAID | FAILED | CANCELLED | EXPIRED | REFUNDED | PARTIALLY_REFUNDED

  predicate Allowed(from: PayState, next: PayState) {
    match from
    case PENDING => next in {PROCESSING, PAID, FAILED, CANCELLED, EXPIRED}
    case PROCESSING => next in {PAID, FAILED, CANCELLED, EXPIRED}
    case PAID => next in {REFUNDED, PARTIALLY_REFUNDED}
    case PARTIALLY_REFUNDED => next == REFUNDED
    case _ => false
  }

  /** What a provider's verified callback asks for. */
  datatype Intent =
    | MarkPaid(externalId: nat, amount: int, paidAt: int)
    | MarkFailed(failedId: Option<nat>, reason: string)
    | MarkCancelled(cancelledId: Option<nat>, why: string)
    | MarkRefunded(refundId: nat, refunded: int)
    | Noop

  datatype Payment = Payment(
    state: PayState, amount: int, order: Option<nat>, booking: Option<nat>,
    externalId: Option<nat>, paidAt: Option<int>, failureReason: Option<string>, refundedAmount: int)

  datatype OrderPayment = UNPAID | PAID_IN_FULL | PAYMENT_FAILED | REFUNDED_IN_FULL | REFUNDED_IN_PART

  datatype OrderRow = OrderRow(payment: OrderPayment, accepted: bool)

  datatype BookingRow = BookingRow(paid: bool, confirmed: bool)

  datatype Event =
    | Succeeded(payment: nat, order: Option<nat>, booking: Option<nat>, amount: int)
    | Failed(payment: nat, order: Option<nat>, reason: string)
    | Refunded(payment: nat, order: Option<nat>, amount: int)

  datatype LogEntry = LogEntry(payment: nat, intent: Intent)

  /** (source, key) of the unique constraint on processed webhooks. */
  datatype DedupKey = DedupKey(source: string, key: string)

  datatype Error = PaymentNotFound | AmountMismatch | RowMissing | UniqueViolation

  datatype Db = Db(
    payments: map<nat, Payment>, orders: map<nat, OrderRow>, bookings: map<nat, BookingRow>,
    outbox: seq<Event>, log: seq<LogEntry>, processed: map<DedupKey, string>)

  // ── one transition ──

  function StateFor(intent: Intent): Option<PayState> {
    match intent
    case MarkPaid(_, _, _) => Some(PAID)
    case MarkFailed(_, _) => Some(FAILED)
    case MarkCancelled(_, _) => Some(CANCELLED)
    case MarkRefunded(_, _) => Some(REFUNDED)
    case Noop => None
  }

  function GivenId(intent: Intent): Option<nat> {
    match intent
    case MarkPaid(id, _, _) => Some(id)
    case MarkFailed(id, _) => id
    case MarkCancelled(id, _) => id
    case MarkRefunded(id, _) => Some(id)
    case Noop => None
  }

  /** The payment row after a transition to `next`. */
  function Updated(p: Payment, intent: Intent, next: PayState): Payment {
    p.(state := next,
       externalId := if GivenId(intent).Some? then GivenId(intent) else p.externalId,
       paidAt := if intent.MarkPaid? then Some(intent.paidAt) else p.paidAt,
       failureReason := if intent.MarkFailed? then Some(intent.reason) else p.failureReason,
       refundedAmount := if intent.MarkRefunded? then intent.refunded else p.refundedAmount)
  }

  function EventFor(id: nat, p: Payment, intent: Intent): Event
    requires !intent.Noop?
  {
    match intent
    case MarkPaid(_, _, _) => Succeeded(id, p.order, p.booking, p.amount)
    case MarkFailed(_, reason) => Failed(id, p.order, reason)
    case MarkCancelled(_, why) => Failed(id, p.order, why)
    case MarkRefunded(_, amount) => Refunded(id, p.order, amount)
  }

  function OrderAfter(row: OrderRow, p: Payment, intent: Intent): OrderRow
    requires !intent.Noop?
  {
    match intent
    case MarkPaid(_, _, _) => OrderRow(PAID_IN_FULL, true)
    case MarkFailed(_, _) => row.(payment := PAYMENT_FAILED)
    case MarkCancelled(_, _) => row.(payment := PAYMENT_FAILED)
    case MarkRefunded(_, amount) =>
      row.(payment := if amount >= p.amount then REFUNDED_IN_FULL else REFUNDED_IN_PART)
  }

  /** All the writes of one real transition. */
  function Transition(db: Db, id: nat, intent: Intent, next: PayState): Result<Db, Error>
    requires id in db.payments && !intent.Noop?
  {
    var p := db.payments[id];
    if p.order.Some? && p.order.value !in db.orders then Err(RowMissing)
    else if intent.MarkPaid? && p.booking.Some? && p.booking.value !in db.bookings then Err(RowMissing)
    else Ok(db.(
      payments := db.payments[id := Updated(p, intent, next)],
      log := db.log + [LogEntry(id, intent)],
      orders := if p.order.Some?
                then db.orders[p.order.value := OrderAfter(db.orders[p.order.value], p, intent)] else db.orders,
      bookings := if intent.MarkPaid? && p.booking.Some?
                  then db.bookings[p.booking.value := BookingRow(true, true)] else db.bookings,
      outbox := db.outbox + [EventFor(id, p, intent)]))
  }

  /** The intent makes a real transition of the payment: new state, allowed, amount as asked. */
  predicate Real(db: Db, id: nat, intent: Intent)
    requires id in db.payments
  {
    && !intent.Noop?
    && Allowed(db.payments[id].state, StateFor(intent).value)
    && (intent.MarkPaid? ==> intent.amount == db.payments[id].amount)
  }

  function ApplyIntent(db: Db, id: nat, intent: Intent): Result<Db, Error> {
    if id !in db.payments then Err(PaymentNotFound)
    else if StateFor(intent).None? then Ok(db)
    else
      var p, next := db.payments[id], StateFor(intent).value;
      if p.state == next || !Allowed(p.state, next) then Ok(db)
      else if intent.MarkPaid? && intent.amount != p.amount then Err(AmountMismatch)
      else Transition(db, id, intent, next)
  }

  // ── the same, spelled out ──

  /** An intent moves a payment: from open to paid, failed or cancelled, and from paid to refunded. */
  predicate Moves(state: PayState, intent: Intent) {
    match intent
    case MarkPaid(_, _, _) => state in {PENDING, PROCESSING}
    case MarkFailed(_, _) => state in {PENDING, PROCESSING}
    case MarkCancelled(_, _) => state in {PENDING, PROCESSING}
    case MarkRefunded(_, _) => state in {PAID, PARTIALLY_REFUNDED}
    case Noop => false
  }

  /** The payment as the intent asks for it; what the intent does not speak of stays. */
  predicate PaymentMoved(p: Payment, q: Payment, intent: Intent) {
    && q.amount == p.amount && q.order == p.order && q.booking == p.booking
    && match intent
       case MarkPaid(external, _, paidAt) =>
         q.state == PAID && q.externalId == Some(external) && q.paidAt == Some(paidAt)
         && q.failureReason == p.failureReason && q.refundedAmount == p.refundedAmount
       case MarkFailed(external, reason) =>
         q.state == FAILED && q.externalId == (if external.Some? then external else p.externalId)
         && q.failureReason == Some(reason) && q.paidAt == p.paidAt && q.refundedAmount == p.refundedAmount
       case MarkCancelled(external, _) =>
         q.state == CANCELLED && q.externalId == (if external.Some? then external else p.externalId)
         && q.failureReason == p.failureReason && q.paidAt == p.paidAt && q.refundedAmount == p.refundedAmount
       case MarkRefunded(external, refunded) =>
         q.state == REFUNDED && q.externalId == Some(external) && q.refundedAmount == refunded
         && q.failureReason == p.failureReason && q.paidAt == p.paidAt
       case Noop => false
  }

  /** What the intent asks of the order's payment status; a refund is full when it reaches the amount. */
  function AskedOf(intent: Intent, amount: int): Option<OrderPayment> {
    match intent
    case MarkPaid(_, _, _) => Some(PAID_IN_FULL)
    case MarkFailed(_, _) => Some(PAYMENT_FAILED)
    case MarkCancelled(_, _) => Some(PAYMENT_FAILED)
    case MarkRefunded(_, refunded) => Some(if refunded >= amount then REFUNDED_IN_FULL else REFUNDED_IN_PART)
    case Noop => None
  }

  /** The payment's order has the status asked for, and is accepted by a payment; every other is as it was. */
  predicate OrdersMoved(p: Payment, intent: Intent, before: map<nat, OrderRow>, after: map<nat, OrderRow>) {
    && after.Keys == before.Keys
    && forall o :: o in before ==>
         if p.order != Some(o) then after[o] == before[o]
         else
           && Some(after[o].payment) == AskedOf(intent, p.amount)
           && after[o].accepted == (if intent.MarkPaid? then true else before[o].accepted)
  }

  /** A payment confirms its booking and marks it paid; nothing else touches bookings. */
  predicate BookingsMoved(p: Payment, intent: Intent, before: map<nat, BookingRow>, after: map<nat, BookingRow>) {
    && after.Keys == before.Keys
    && forall b :: b in before ==>
         if intent.MarkPaid? && p.booking == Some(b) then after[b].paid && after[b].confirmed else after[b] == before[b]
  }

  predicate Announces(e: Event, id: nat, p: Payment, intent: Intent) {
    match intent
    case MarkPaid(_, _, _) => e == Succeeded(id, p.order, p.booking, p.amount)
    case MarkFailed(_, reason) => e == Failed(id, p.order, reason)
    case MarkCancelled(_, reason) => e == Failed(id, p.order, reason)
    case MarkRefunded(_, refunded) => e == Refunded(id, p.order, refunded)
    case Noop => false
  }

  /** Everything a transition does, and that it does nothing else; dedup rows are another matter. */
  ghost predicate Effects(before: Db, after: Db, id: nat, intent: Intent)
    requires id in before.payments
  {
    var p := before.payments[id];
    && after.payments.Keys == before.payments.Keys
    && PaymentMoved(p, after.payments[id], intent)
    && (forall other :: other in before.payments && other != id ==> after.payments[other] == before.payments[other])
    && OrdersMoved(p, intent, before.orders, after.orders)
    && BookingsMoved(p, intent, before.bookings, after.bookings)
    && after.log == before.log + [LogEntry(id, intent)]
    && |after.outbox| == |before.outbox| + 1 && after.outbox[..|before.outbox|] == before.outbox
    && Announces(after.outbox[|before.outbox|], id, p, intent)
  }

  ghost predicate SameRows(before: Db, after: Db) {
    && after.payments == before.payments && after.orders == before.orders && after.bookings == before.bookings
    && after.log == before.log && after.outbox == before.outbox
  }

  lemma TransitionEffects(db: Db, id: nat, intent: Intent)
    requires id in db.payments && !intent.Noop?
    requires Transition(db, id, intent, StateFor(intent).value).Ok?
    ensures Effects(db, Transition(db, id, intent, StateFor(intent).value).value, id, intent)
  {
  }

  /** Whether an intent fails, moves the payment, or changes nothing at all. */
  lemma AppliesExactly(db: Db, id: nat, intent: Intent)
    ensures var r := ApplyIntent(db, id, intent);
      && (r == Err(PaymentNotFound) <==> id !in db.payments)
      && (id in db.payments ==>
            && (r == Err(AmountMismatch) <==>
                  Moves(db.payments[id].state, intent) && intent.MarkPaid? && intent.amount != db.payments[id].amount)
            && (r.Ok? && Moves(db.payments[id].state, intent) ==> Effects(db, r.value, id, intent))
            && (!Moves(db.payments[id].state, intent) ==> r == Ok(db)))
  {
    if id in db.payments && Moves(db.payments[id].state, intent) && ApplyIntent(db, id, intent).Ok? {
      TransitionEffects(db, id, intent);
    }
  }

  /** A delivery that commits records its key and answer, and does what its intent asks and nothing else. */
  ghost predicate DeliveryEffects(before: Db, after: Db, d: Delivery) {
    && after.processed == before.processed[d.key := d.response]
    && (d.payment.Some? ==> d.payment.value in before.payments || d.intent.Noop?)
    && if d.payment.Some? && d.payment.value in before.payments
         && Moves(before.payments[d.payment.value].state, d.intent)
       then Effects(before, after, d.payment.value, d.intent)
       else SameRows(before, after)
  }

  lemma AttemptEffects(db: Db, d: Delivery)
    requires Attempt(db, d).Ok?
    ensures DeliveryEffects(db, Attempt(db, d).value, d)
  {
    var recorded := db.(processed := db.processed[d.key := d.response]);
    if d.payment.Some? && !d.intent.Noop? {
      AppliesExactly(recorded, d.payment.value, d.intent);
    }
  }

  // ── deliveries ──

  datatype Delivery = Delivery(key: DedupKey, payment: Option<nat>, intent: Intent, response: string)

  /** Dedup row and transition in one transaction. */
  function Attempt(db: Db, d: Delivery): Result<Db, Error> {
    if d.key in db.processed then Err(UniqueViolation)
    else
      var recorded := db.(processed := db.processed[d.key := d.response]);
      if d.payment.Some? && !d.intent.Noop? then ApplyIntent(recorded, d.payment.value, d.intent)
      else Ok(recorded)
  }

  function Committed(before: Db, attempt: Result<Db, Error>): Db {
    match attempt
    case Ok(after) => after
    case Err(_) => before
  }

  /** An amount mismatch, like every failure, leaves the whole database as it was. */
  lemma MismatchChangesNothing(db: Db, d: Delivery)
    requires d.key !in db.processed && d.intent.MarkPaid? && d.payment.Some? && d.payment.value in db.payments
    requires Allowed(db.payments[d.payment.value].state, PAID)
    requires d.intent.amount != db.payments[d.payment.value].amount
    ensures Attempt(db, d) == Err(AmountMismatch) && Committed(db, Attempt(db, d)) == db
  {
  }

  // ── operations and runs ──

  /**
   * Opened: a payment row created for an order, for a provider that may settle at once.
   * Direct: an intent applied outside a webhook, as for cash at the counter.
   */
  datatype Op =
    | Hook(delivery: Delivery)
    | Direct(payment: nat, intent: Intent)
    | Opened(id: nat, order: Option<nat>, booking: Option<nat>, amount: int, settled: bool)

  /** Creating a payment; a provider that settles at once writes PAID before the intent is applied. */
  function Open(db: Db, id: nat, order: Option<nat>, booking: Option<nat>, amount: int, settled: bool)
    : Result<Db, Error>
  {
    if id in db.payments then Err(UniqueViolation)
    else
      var p := Payment(if settled then PAID else PENDING, amount, order, booking, None, None, None, 0);
      var created := db.(payments := db.payments[id := p]);
      if settled then ApplyIntent(created, id, MarkPaid(id, amount, 0)) else Ok(created)
  }

  function Perform(db: Db, op: Op): Result<Db, Error> {
    match op
    case Hook(d) => Attempt(db, d)
    case Direct(id, intent) => ApplyIntent(db, id, intent)
    case Opened(id, order, booking, amount, settled) => Open(db, id, order, booking, amount, settled)
  }

  function PerformAll(db: Db, ops: seq<Op>): Db {
    if ops == [] then db
    else
      var before := PerformAll(db, ops[..|ops| - 1]);
      Committed(before, Perform(before, ops[|ops| - 1]))
  }

  /** Arrive reads the dedup table; Process runs the transaction later; Now runs an operation at once. */
  datatype Step = Arrive(ticket: nat, delivery: Delivery) | Process(ticket: nat) | Now(op: Op)

  datatype State = State(db: Db, waiting: map<nat, Delivery>)

  function Next(s: State, step: Step): State {
    match step
    case Arrive(t, d) =>
      if d.key in s.db.processed || t in s.waiting then s     // replayed response, nothing to do
      else s.(waiting := s.waiting[t := d])
    case Process(t) =>
      if t !in s.waiting then s
      else State(Committed(s.db, Attempt(s.db, s.waiting[t])), s.waiting - {t})
    case Now(op) => s.(db := Committed(s.db, Perform(s.db, op)))
  }

  function Run(s: State, steps: seq<Step>): State {
    if steps == [] then s else Next(Run(s, steps[..|steps| - 1]), steps[|steps| - 1])
  }

  /** A delivery whose key is known stops at its arrival; any other, processed at once, is the handler's attempt. */
  lemma ArrivalIsAttempt(s: State, t: nat, d: Delivery)
    requires t !in s.waiting
    ensures d.key in s.db.processed ==> Next(s, Arrive(t, d)) == s
    ensures d.key !in s.db.processed ==>
      && t in Next(s, Arrive(t, d)).waiting
      && Next(Next(s, Arrive(t, d)), Process(t)) == s.(db := Committed(s.db, Attempt(s.db, d)))
  {
    assert s.waiting[t := d] - {t} == s.waiting;
  }

  /** The operation a step commits in a state, if it commits one. */
  function CommittedOp(s: State, step: Step): seq<Op> {
    match step
    case Arrive(_, _) => []
    case Process(t) => if t in s.waiting && Attempt(s.db, s.waiting[t]).Ok? then [Hook(s.waiting[t])] else []
    case Now(op) => if Perform(s.db, op).Ok? then [op] else []
  }

  /** What the run really did: every other arrival, replay, lost race and failure dropped. */
  function Effective(s: State, steps: seq<Step>): seq<Op> {
    if steps == [] then []
    else
      var n := |steps| - 1;
      Effective(s, steps[..n]) + CommittedOp(Run(s, steps[..n]), steps[n])
  }

  ghost predicate DistinctKeys(ops: seq<Op>) {
    forall i, j :: 0 <= i < j < |ops| && ops[i].Hook? && ops[j].Hook? ==> ops[i].delivery.key != ops[j].delivery.key
  }

  lemma AttemptRecordsKey(db: Db, op: Op)
    requires Perform(db, op).Ok?
    ensures db.processed.Keys <= Perform(db, op).value.processed.Keys
    ensures op.Hook? ==> op.delivery.key !in db.processed && op.delivery.key in Perform(db, op).value.processed
  {
  }

  /** `now` is what the committed operations make of `start`, and no dedup key was used twice. */
  ghost predicate Explains(start: Db, ops: seq<Op>, now: Db) {
    && now == PerformAll(start, ops)
    && DistinctKeys(ops)
    && start.processed.Keys <= now.processed.Keys
    && forall k :: 0 <= k < |ops| && ops[k].Hook? ==>
         ops[k].delivery.key !in start.processed && ops[k].delivery.key in now.processed
  }

  lemma ExplainsOneMore(start: Db, ops: seq<Op>, now: Db, op: Op)
    requires Explains(start, ops, now) && Perform(now, op).Ok?
    ensures Explains(start, ops + [op], Perform(now, op).value)
  {
    AttemptRecordsKey(now, op);
    assert (ops + [op])[..|ops|] == ops;
    DistinctAppend(ops, op, now);
  }

  lemma DistinctAppend(ops: seq<Op>, op: Op, now: Db)
    requires DistinctKeys(ops)
    requires forall k :: 0 <= k < |ops| && ops[k].Hook? ==> ops[k].delivery.key in now.processed
    requires op.Hook? ==> op.delivery.key !in now.processed
    ensures DistinctKeys(ops + [op])
  {
  }

  lemma StepCommits(s: State, step: Step)
    ensures |CommittedOp(s, step)| <= 1
    ensures CommittedOp(s, step) == [] ==> Next(s, step).db == s.db
    ensures |CommittedOp(s, step)| == 1 ==> Perform(s.db, CommittedOp(s, step)[0]) == Ok(Next(s, step).db)
  {
  }

  /**
   * Duplicate elimination. Whatever arrives, however often and however stale the dedup reads,
   * the database is the one left by the committed operations alone, and among those no dedup
   * key occurs twice nor was already processed at the start.
   */
  lemma {:induction false} ReplaysChangeNothing(s: State, steps: seq<Step>)
    ensures Explains(s.db, Effective(s, steps), Run(s, steps).db)
  {
    if steps != [] {
      var n := |steps| - 1;
      ReplaysChangeNothing(s, steps[..n]);
      var mid := Run(s, steps[..n]);
      var ops, more := Effective(s, steps[..n]), CommittedOp(mid, steps[n]);
      StepCommits(mid, steps[n]);
      if more == [] {
        assert ops + more == ops;
      } else {
        ExplainsOneMore(s.db, ops, mid.db, more[0]);
      }
    }
  }

  ghost predicate Delivered(ops: seq<Op>, key: DedupKey) {
    exists k :: 0 <= k < |ops| && ops[k].Hook? && ops[k].delivery.key == key
  }

  lemma DeliveredAppend(ops: seq<Op>, more: seq<Op>, key: DedupKey)
    ensures Delivered(ops + more, key) <==> Delivered(ops, key) || Delivered(more, key)
  {
    if Delivered(ops, key) {
      var k :| 0 <= k < |ops| && ops[k].Hook? && ops[k].delivery.key == key;
      assert (ops + more)[k] == ops[k];
    }
    if Delivered(more, key) {
      var k :| 0 <= k < |more| && more[k].Hook? && more[k].delivery.key == key;
      assert (ops + more)[|ops| + k] == more[k];
    }
  }

  lemma StepDelivers(s: State, step: Step, key: DedupKey)
    ensures key in Next(s, step).db.processed <==> key in s.db.processed || Delivered(CommittedOp(s, step), key)
  {
    StepCommits(s, step);
    var more := CommittedOp(s, step);
    if more != [] {
      AttemptRecordsKey(s.db, more[0]);
      assert Delivered(more, key) <==> more[0].Hook? && more[0].delivery.key == key;
    }
  }

  /** A key is processed exactly when it was at the start or a delivery of it has committed. */
  lemma {:induction false} ProcessedExactly(s: State, steps: seq<Step>, key: DedupKey)
    ensures key in Run(s, steps).db.processed <==> key in s.db.processed || Delivered(Effective(s, steps), key)
  {
    if steps != [] {
      var n := |steps| - 1;
      ProcessedExactly(s, steps[..n], key);
      StepDelivers(Run(s, steps[..n]), steps[n], key);
      DeliveredAppend(Effective(s, steps[..n]), CommittedOp(Run(s, steps[..n]), steps[n]), key);
    }
  }

  /**
   * A failed delivery leaves nothing behind, so a retry after any run is decided afresh: it is
   * refused as a duplicate exactly when some delivery of the same key has committed meanwhile.
   */
  lemma RetryIsGenuine(s: State, d: Delivery, steps: seq<Step>)
    requires Attempt(s.db, d).Err? && Attempt(s.db, d).error != UniqueViolation
    ensures Committed(s.db, Attempt(s.db, d)) == s.db
    ensures Attempt(Run(s, steps).db, d) == Err(UniqueViolation) <==> Delivered(Effective(s, steps), d.key)
  {
    ProcessedExactly(s, steps, d.key);
  }

  // ── payment history ──

  /** The state reached by following the payment's log from PENDING, if every move is allowed. */
  function Follow(log: seq<LogEntry>, id: nat): Option<PayState> {
    if log == [] then Some(PENDING)
    else
      var e, before := log[|log| - 1], Follow(log[..|log| - 1], id);
      if e.payment != id then before
      else if before.Some? && StateFor(e.intent).Some? && Allowed(before.value, StateFor(e.intent).value)
      then StateFor(e.intent)
      else None
  }

  function Count(outbox: seq<Event>, id: nat, succeeded: bool): nat {
    if outbox == [] then 0
    else
      var e := outbox[|outbox| - 1];
      Count(outbox[..|outbox| - 1], id, succeeded)
      + if e.payment == id && ((succeeded && e.Succeeded?) || (!succeeded && e.Refunded?)) then 1 else 0
  }

  /** The log holds a payment of exactly this amount. */
  ghost predicate PaidExactly(log: seq<LogEntry>, id: nat, amount: int) {
    exists k :: 0 <= k < |log| && log[k].payment == id && log[k].intent.MarkPaid? && log[k].intent.amount == amount
  }

  /** The row agrees with where its log leads, what was announced, and whether it was paid exactly. */
  predicate Agrees(p: Payment, reached: Option<PayState>, successes: nat, refunds: nat, paidExactly: bool) {
    && reached == Some(p.state)
    && successes == (if p.state in {PAID, REFUNDED} then 1 else 0)
    && refunds == (if p.state == REFUNDED then 1 else 0)
    && p.state in {PENDING, PAID, FAILED, CANCELLED, REFUNDED}
    && (p.state in {PAID, REFUNDED} ==> paidExactly)
  }

  ghost predicate History(db: Db, id: nat)
    requires id in db.payments
  {
    var p := db.payments[id];
    Agrees(p, Follow(db.log, id), Count(db.outbox, id, true), Count(db.outbox, id, false),
           PaidExactly(db.log, id, p.amount))
  }

  ghost predicate Unmentioned(db: Db, id: nat) {
    && (forall k :: 0 <= k < |db.log| ==> db.log[k].payment != id)
    && (forall k :: 0 <= k < |db.outbox| ==> db.outbox[k].payment != id)
  }

  ghost predicate Histories(db: Db) {
    && (forall id :: id in db.payments ==> History(db, id))
    && (forall id :: id !in db.payments ==> Unmentioned(db, id))
  }

  lemma {:induction false} UnmentionedIsFresh(db: Db, id: nat)
    requires Unmentioned(db, id)
    ensures Follow(db.log, id) == Some(PENDING)
    ensures Count(db.outbox, id, true) == 0 && Count(db.outbox, id, false) == 0
    decreases |db.log| + |db.outbox|
  {
    if db.log != [] {
      UnmentionedIsFresh(db.(log := db.log[..|db.log| - 1]), id);
    }
    if db.outbox != [] {
      UnmentionedIsFresh(db.(outbox := db.outbox[..|db.outbox| - 1]), id);
    }
  }

  /** One more log entry and one more event, for some payment. */
  lemma AppendEffects(log: seq<LogEntry>, e: LogEntry, outbox: seq<Event>, v: Event, id: nat)
    ensures Follow(log + [e], id) ==
      if e.payment != id then Follow(log, id)
      else if Follow(log, id).Some? && StateFor(e.intent).Some?
        && Allowed(Follow(log, id).value, StateFor(e.intent).value)
      then StateFor(e.intent) else None
    ensures Count(outbox + [v], id, true) == Count(outbox, id, true) + if v.payment == id && v.Succeeded? then 1 else 0
    ensures Count(outbox + [v], id, false) == Count(outbox, id, false) + if v.payment == id && v.Refunded? then 1 else 0
    ensures forall amount :: PaidExactly(log, id, amount) ==> PaidExactly(log + [e], id, amount)
  {
    assert (log + [e])[..|log|] == log && (outbox + [v])[..|outbox|] == outbox;
    forall amount | PaidExactly(log, id, amount) ensures PaidExactly(log + [e], id, amount) {
      var k :| 0 <= k < |log| && log[k].payment == id && log[k].intent.MarkPaid? && log[k].intent.amount == amount;
      assert (log + [e])[k] == log[k];
    }
  }

  lemma TransitionKeepsHistories(db: Db, id: nat, intent: Intent)
    requires Histories(db) && id in db.payments && Real(db, id, intent)
    requires Transition(db, id, intent, StateFor(intent).value).Ok?
    ensures Histories(Transition(db, id, intent, StateFor(intent).value).value)
  {
    var after := Transition(db, id, intent, StateFor(intent).value).value;
    SamePayments(db, id, intent);
    forall q | q in after.payments ensures History(after, q) {
      assert History(db, q);
      if q == id { MovedHistory(db, id, intent); } else { OtherHistory(db, id, intent, q); }
    }
    forall q | q !in after.payments ensures Unmentioned(after, q) {
      StillUnmentioned(db, id, intent, q);
    }
  }

  lemma SamePayments(db: Db, id: nat, intent: Intent)
    requires id in db.payments && !intent.Noop? && Transition(db, id, intent, StateFor(intent).value).Ok?
    ensures Transition(db, id, intent, StateFor(intent).value).value.payments.Keys == db.payments.Keys
  {
  }

  lemma StillUnmentioned(db: Db, id: nat, intent: Intent, other: nat)
    requires id in db.payments && other != id && Unmentioned(db, other) && !intent.Noop?
    requires Transition(db, id, intent, StateFor(intent).value).Ok?
    ensures Unmentioned(Transition(db, id, intent, StateFor(intent).value).value, other)
  {
    assert EventFor(id, db.payments[id], intent).payment == id;
  }

  lemma MovedAgrees(p: Payment, intent: Intent, successes: nat, refunds: nat, paidExactly: bool)
    requires Agrees(p, Some(p.state), successes, refunds, paidExactly)
    requires !intent.Noop? && Allowed(p.state, StateFor(intent).value)
    ensures Agrees(
      Updated(p, intent, StateFor(intent).value), StateFor(intent),
      successes + (if intent.MarkPaid? then 1 else 0), refunds + (if intent.MarkRefunded? then 1 else 0),
      paidExactly || intent.MarkPaid?)
  {
  }

  lemma MovedHistory(db: Db, id: nat, intent: Intent)
    requires id in db.payments && History(db, id) && Real(db, id, intent)
    requires Transition(db, id, intent, StateFor(intent).value).Ok?
    ensures History(Transition(db, id, intent, StateFor(intent).value).value, id)
  {
    var after, p := Transition(db, id, intent, StateFor(intent).value).value, db.payments[id];
    var e, v := LogEntry(id, intent), EventFor(id, p, intent);
    AppendEffects(db.log, e, db.outbox, v, id);
    MovedAgrees(
      p, intent, Count(db.outbox, id, true), Count(db.outbox, id, false), PaidExactly(db.log, id, p.amount));
    PaidNow(db.log, id, intent, p.amount);
    assert after.payments[id] == Updated(p, intent, StateFor(intent).value);
    assert after.log == db.log + [e] && after.outbox == db.outbox + [v];
  }

  lemma PaidNow(log: seq<LogEntry>, id: nat, intent: Intent, amount: int)
    ensures intent.MarkPaid? && intent.amount == amount ==> PaidExactly(log + [LogEntry(id, intent)], id, amount)
  {
    assert (log + [LogEntry(id, intent)])[|log|] == LogEntry(id, intent);
  }

  lemma OtherHistory(db: Db, id: nat, intent: Intent, other: nat)
    requires id in db.payments && other in db.payments && other != id && History(db, other) && !intent.Noop?
    requires Transition(db, id, intent, StateFor(intent).value).Ok?
    ensures History(Transition(db, id, intent, StateFor(intent).value).value, other)
  {
    AppendEffects(db.log, LogEntry(id, intent), db.outbox, EventFor(id, db.payments[id], intent), other);
  }

  lemma ApplyIsTransition(db: Db, id: nat, intent: Intent)
    requires ApplyIntent(db, id, intent).Ok?
    ensures id in db.payments
    ensures ApplyIntent(db, id, intent)
      == if Real(db, id, intent) then Transition(db, id, intent, StateFor(intent).value) else Ok(db)
  {
  }

  lemma ApplyKeepsHistories(db: Db, id: nat, intent: Intent)
    requires Histories(db) && ApplyIntent(db, id, intent).Ok?
    ensures Histories(ApplyIntent(db, id, intent).value)
  {
    ApplyIsTransition(db, id, intent);
    if Real(db, id, intent) { TransitionKeepsHistories(db, id, intent); }
  }

  lemma SameTables(db: Db, other: Db)
    requires Histories(db) && db.payments == other.payments && db.log == other.log && db.outbox == other.outbox
    ensures Histories(other)
  {
    forall id | id in other.payments ensures History(other, id) { assert History(db, id); }
    forall id | id !in other.payments ensures Unmentioned(other, id) { assert Unmentioned(db, id); }
  }

  /** A new payment has a correct history exactly when its provider does not settle at once. */
  lemma OpenKeepsHistories(db: Db, id: nat, order: Option<nat>, booking: Option<nat>, amount: int, settled: bool)
    requires Histories(db) && Open(db, id, order, booking, amount, settled).Ok?
    ensures Histories(Open(db, id, order, booking, amount, settled).value) <==> !settled
  {
    var after := Open(db, id, order, booking, amount, settled).value;
    assert Unmentioned(db, id);
    assert Unmentioned(after, id);
    UnmentionedIsFresh(after, id);
    if settled {
      assert after.payments[id].state == PAID && Follow(after.log, id) == Some(PENDING);
      assert !History(after, id);
    } else {
      forall q | q in after.payments ensures History(after, q) {
        if q != id { assert History(db, q); }
      }
      forall q | q !in after.payments ensures Unmentioned(after, q) { assert Unmentioned(db, q); }
    }
  }

  predicate SettlesAtOnce(op: Op) { op.Opened? && op.settled }

  lemma PerformKeepsHistories(db: Db, op: Op)
    requires Histories(db) && !SettlesAtOnce(op)
    ensures Histories(Committed(db, Perform(db, op)))
  {
    if Perform(db, op).Ok? {
      match op
      case Hook(d) =>
        var recorded := db.(processed := db.processed[d.key := d.response]);
        SameTables(db, recorded);
        if d.payment.Some? && !d.intent.Noop? { ApplyKeepsHistories(recorded, d.payment.value, d.intent); }
      case Direct(id, intent) => ApplyKeepsHistories(db, id, intent);
      case Opened(id, order, booking, amount, settled) => OpenKeepsHistories(db, id, order, booking, amount, settled);
    }
  }

  /**
   * Over any run in which no provider settles at once, every payment's log is a path of allowed
   * transitions from PENDING to its current state, success and refund are announced at most
   * once each, and a paid or refunded payment has a log entry of exactly the amount asked.
   */
  lemma {:induction false} RunKeepsHistories(s: State, steps: seq<Step>)
    requires Histories(s.db)
    requires forall k :: 0 <= k < |steps| ==> !(steps[k].Now? && SettlesAtOnce(steps[k].op))
    ensures Histories(Run(s, steps).db)
  {
    if steps != [] {
      var n := |steps| - 1;
      RunKeepsHistories(s, steps[..n]);
      var mid := Run(s, steps[..n]);
      match steps[n]
      case Arrive(_, _) =>
      case Process(t) => if t in mid.waiting { PerformKeepsHistories(mid.db, Hook(mid.waiting[t])); }
      case Now(op) => PerformKeepsHistories(mid.db, op);
    }
  }

  lemma EmptyHistories(orders: map<nat, OrderRow>, bookings: map<nat, BookingRow>)
    ensures Histories(Db(map[], orders, bookings, [], [], map[]))
  {
  }

  // ── an order's payment status ──

  /** What the last log entry for any payment of the order asks of its payment status. */
  function LastAsked(db: Db, log: seq<LogEntry>, order: nat): Option<OrderPayment> {
    if log == [] then None
    else
      var e := log[|log| - 1];
      if e.payment in db.payments && db.payments[e.payment].order == Some(order) && !e.intent.Noop?
      then AskedOf(e.intent, db.payments[e.payment].amount)
      else LastAsked(db, log[..|log| - 1], order)
  }

  /** Every order has the payment status last asked for, or else the one it had at first. */
  ghost predicate OrdersAsAsked(first: map<nat, OrderRow>, db: Db) {
    && db.orders.Keys == first.Keys
    && (forall k :: 0 <= k < |db.log| ==> db.log[k].payment in db.payments)
    && forall o :: o in db.orders ==>
         db.orders[o].payment == match LastAsked(db, db.log, o) case Some(s) => s case None => first[o].payment
  }

  lemma {:induction false} LastAskedElsewhere(db: Db, other: Db, log: seq<LogEntry>, order: nat)
    requires forall k :: 0 <= k < |log| ==>
      && log[k].payment in db.payments && log[k].payment in other.payments
      && db.payments[log[k].payment].order == other.payments[log[k].payment].order
      && db.payments[log[k].payment].amount == other.payments[log[k].payment].amount
    ensures LastAsked(db, log, order) == LastAsked(other, log, order)
  {
    if log != [] { LastAskedElsewhere(db, other, log[..|log| - 1], order); }
  }

  lemma EffectsKeepOrders(first: map<nat, OrderRow>, db: Db, after: Db, id: nat, intent: Intent)
    requires OrdersAsAsked(first, db) && id in db.payments && Effects(db, after, id, intent) && !intent.Noop?
    ensures OrdersAsAsked(first, after)
  {
    var e := LogEntry(id, intent);
    assert after.log[..|db.log|] == db.log && after.log[|db.log|] == e;
    forall k | 0 <= k < |db.log| ensures
      && db.log[k].payment in after.payments
      && db.payments[db.log[k].payment].order == after.payments[db.log[k].payment].order
      && db.payments[db.log[k].payment].amount == after.payments[db.log[k].payment].amount
    {
      assert db.log[k].payment != id ==> after.payments[db.log[k].payment] == db.payments[db.log[k].payment];
    }
    forall o | o in after.orders
      ensures after.orders[o].payment ==
        match LastAsked(after, after.log, o) case Some(s) => s case None => first[o].payment
    {
      LastAskedElsewhere(db, after, db.log, o);
      LastAskedAppend(after, db.log, e, o);
    }
  }

  lemma LastAskedAppend(db: Db, log: seq<LogEntry>, e: LogEntry, order: nat)
    ensures LastAsked(db, log + [e], order) ==
      if e.payment in db.payments && db.payments[e.payment].order == Some(order) && !e.intent.Noop?
      then AskedOf(e.intent, db.payments[e.payment].amount) else LastAsked(db, log, order)
  {
    assert (log + [e])[..|log|] == log;
  }

  /** Dedup rows and new payments leave orders as asked; a row's other fields do not matter. */
  lemma OrdersAsAskedStill(first: map<nat, OrderRow>, db: Db, after: Db)
    requires OrdersAsAsked(first, db) && after.orders == db.orders && after.log == db.log
    requires db.payments.Keys <= after.payments.Keys
    requires forall id :: id in db.payments ==>
      after.payments[id].order == db.payments[id].order && after.payments[id].amount == db.payments[id].amount
    ensures OrdersAsAsked(first, after)
  {
    forall o | o in after.orders
      ensures after.orders[o].payment ==
        match LastAsked(after, after.log, o) case Some(s) => s case None => first[o].payment
    {
      LastAskedElsewhere(db, after, db.log, o);
    }
  }

  lemma ApplyKeepsOrders(first: map<nat, OrderRow>, db: Db, id: nat, intent: Intent)
    requires OrdersAsAsked(first, db) && ApplyIntent(db, id, intent).Ok?
    ensures OrdersAsAsked(first, ApplyIntent(db, id, intent).value)
  {
    AppliesExactly(db, id, intent);
    if Moves(db.payments[id].state, intent) {
      EffectsKeepOrders(first, db, ApplyIntent(db, id, intent).value, id, intent);
    }
  }

  lemma PerformKeepsOrders(first: map<nat, OrderRow>, db: Db, op: Op)
    requires OrdersAsAsked(first, db)
    ensures OrdersAsAsked(first, Committed(db, Perform(db, op)))
  {
    if Perform(db, op).Ok? {
      match op
      case Hook(d) =>
        var recorded := db.(processed := db.processed[d.key := d.response]);
        OrdersAsAskedStill(first, db, recorded);
        if d.payment.Some? && !d.intent.Noop? { ApplyKeepsOrders(first, recorded, d.payment.value, d.intent); }
      case Direct(id, intent) => ApplyKeepsOrders(first, db, id, intent);
      case Opened(id, order, booking, amount, settled) =>
        OpenKeepsOrders(first, db, id, order, booking, amount, settled);
    }
  }

  lemma OpenKeepsOrders(
    first: map<nat, OrderRow>, db: Db, id: nat, order: Option<nat>, booking: Option<nat>, amount: int, settled: bool)
    requires OrdersAsAsked(first, db) && Open(db, id, order, booking, amount, settled).Ok?
    ensures OrdersAsAsked(first, Open(db, id, order, booking, amount, settled).value)
  {
    var p := Payment(if settled then PAID else PENDING, amount, order, booking, None, None, None, 0);
    var created := db.(payments := db.payments[id := p]);
    OrdersAsAskedStill(first, db, created);
    if settled { ApplyKeepsOrders(first, created, id, MarkPaid(id, amount, 0)); }
  }

  /**
   * Over any run, an order's payment status is the one that the last log entry for any of its
   * payments asks for, or the one it started with when there is none.
   */
  lemma {:induction false} RunKeepsOrders(first: map<nat, OrderRow>, s: State, steps: seq<Step>)
    requires OrdersAsAsked(first, s.db)
    ensures OrdersAsAsked(first, Run(s, steps).db)
  {
    if steps != [] {
      var n := |steps| - 1;
      RunKeepsOrders(first, s, steps[..n]);
      var mid := Run(s, steps[..n]);
      match steps[n]
      case Arrive(_, _) =>
      case Process(t) => if t in mid.waiting { PerformKeepsOrders(first, mid.db, Hook(mid.waiting[t])); }
      case Now(op) => PerformKeepsOrders(first, mid.db, op);
    }
  }

  // ── the service ──

  class PaymentsService {
    var payments: map<nat, Payment>
    var orders: map<nat, OrderRow>
    var bookings: map<nat, BookingRow>
    var outbox: seq<Event>
    var log: seq<LogEntry>
    var processed: map<DedupKey, string>

    ghost function Snapshot(): Db
      reads this
    {
      Db(payments, orders, bookings, outbox, log, processed)
    }

    constructor (orders: map<nat, OrderRow>, bookings: map<nat, BookingRow>)
      ensures Snapshot() == Db(map[], orders, bookings, [], [], map[]) && Histories(Snapshot())
    {
      EmptyHistories(orders, bookings);
      this.orders, this.bookings := orders, bookings;
      payments, outbox, log, processed := map[], [], [], map[];
    }

    /** The body of the transaction, write by write; after an error the writes so far stand. */
    method ApplyIntentInTransaction(id: nat, intent: Intent) returns (error: Option<Error>)
      modifies this
      ensures ApplyIntent(old(Snapshot()), id, intent) ==
        if error == None then Ok(Snapshot()) else Err(error.value)
      ensures error == Some(PaymentNotFound) <==> id !in old(payments)
      ensures id in old(payments) && Moves(old(payments)[id].state, intent) && error == None ==>
        Effects(old(Snapshot()), Snapshot(), id, intent)
      ensures id in old(payments) && !Moves(old(payments)[id].state, intent) ==>
        error == None && Snapshot() == old(Snapshot())
      ensures id in old(payments) ==>
        (error == Some(AmountMismatch) <==>
           && Moves(old(payments)[id].state, intent)
           && intent.MarkPaid? && intent.amount != old(payments)[id].amount)
    {
      AppliesExactly(Snapshot(), id, intent);
      error := WriteIntent(id, intent);
    }

    method WriteIntent(id: nat, intent: Intent) returns (error: Option<Error>)
      modifies this
      ensures ApplyIntent(old(Snapshot()), id, intent) ==
        if error == None then Ok(Snapshot()) else Err(error.value)
    {
      if id !in payments { return Some(PaymentNotFound); }
      var p := payments[id];
      var next := StateFor(intent);
      if next == None { return None; }
      if p.state == next.value { return None; }
      if !Allowed(p.state, next.value) { return None; }
      if intent.MarkPaid? && intent.amount != p.amount {
        payments := payments[id := p.(state := FAILED, failureReason := Some("Amount mismatch"))];
        return Some(AmountMismatch);
      }
      payments := payments[id := Updated(p, intent, next.value)];
      log := log + [LogEntry(id, intent)];
      if p.order.Some? {
        if p.order.value !in orders { return Some(RowMissing); }
        orders := orders[p.order.value := OrderAfter(orders[p.order.value], p, intent)];
      }
      if intent.MarkPaid? && p.booking.Some? {
        if p.booking.value !in bookings { return Some(RowMissing); }
        bookings := bookings[p.booking.value := BookingRow(true, true)];
      }
      outbox := outbox + [EventFor(id, p, intent)];
      return None;
    }

    method Restore(db: Db)
      modifies this
      ensures Snapshot() == db
    {
      payments, orders, bookings := db.payments, db.orders, db.bookings;
      outbox, log, processed := db.outbox, db.log, db.processed;
    }

    /** Dedup row first, then the intent; any error rolls the whole transaction back. */
    method ApplyIntentWithDedup(d: Delivery) returns (error: Option<Error>)
      modifies this
      ensures error == if Attempt(old(Snapshot()), d).Ok? then None else Some(Attempt(old(Snapshot()), d).error)
      ensures Snapshot() == Committed(old(Snapshot()), Attempt(old(Snapshot()), d))
      ensures old(Histories(Snapshot())) ==> Histories(Snapshot())
    {
      if Histories(Snapshot()) { PerformKeepsHistories(Snapshot(), Hook(d)); }
      var saved := Db(payments, orders, bookings, outbox, log, processed);
      if d.key in processed { return Some(UniqueViolation); }
      processed := processed[d.key := d.response];
      error := None;
      if d.payment.Some? && !d.intent.Noop? {
        error := ApplyIntentInTransaction(d.payment.value, d.intent);
      }
      if error != None { Restore(saved); }
    }

    /**
     * The pipeline after signature verification. The stored response is replayed for a known
     * key; a lost race is answered like a success; an unknown payment is reported and forgotten.
     */
    method HandleWebhook(d: Delivery) returns (response: Option<string>, error: Option<Error>)
      modifies this
      ensures Snapshot() == Committed(old(Snapshot()), Attempt(old(Snapshot()), d))
      ensures d.key in old(processed) ==> response == Some(old(processed)[d.key]) && error == None
      ensures d.key !in old(processed) && Attempt(old(Snapshot()), d).Ok? ==>
        response == Some(d.response) && error == None && d.key in processed && processed[d.key] == d.response
      ensures d.key !in old(processed) && error == None ==> DeliveryEffects(old(Snapshot()), Snapshot(), d)
      ensures d.key !in old(processed) && Attempt(old(Snapshot()), d).Err? ==>
        response == None && error == Some(Attempt(old(Snapshot()), d).error) && Snapshot() == old(Snapshot())
      ensures old(Histories(Snapshot())) ==> Histories(Snapshot())
    {
      if d.key in processed { return Some(processed[d.key]), None; }
      error := ApplyIntentWithDedup(d);
      if error == None {
        ProcessedKept(old(Snapshot()), d);
        AttemptEffects(old(Snapshot()), d);
        return Some(d.response), None;
      }
      return None, error;
    }
  }

  lemma ProcessedKept(db: Db, d: Delivery)
    requires Attempt(db, d).Ok?
    ensures d.key in Attempt(db, d).value.processed && Attempt(db, d).value.processed[d.key] == d.response
  {
  }
}
