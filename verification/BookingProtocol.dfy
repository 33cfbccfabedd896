/**
 * The write protocol of apps/api/src/modules/bookings/bookings.service.ts as interleaved steps.
 *
 * `create` is a read-committed transaction: take the (resource, local day) lock, re-check
 * against committed rows, insert, commit. `updateStatus` reads the row before its
 * transaction and writes inside it, so the status it checked may be stale.
 *
 * The steps are modelled with and without the exclusion constraint that
 * packages/database/prisma/migrations/20260916202500_hardening/migration.sql puts on live rows:
 * a write that would overlap a committed live row is refused, and one that would overlap a row
 * inserted but not yet committed waits.
 */
module BookingProtocol {
  import opened Availability
  import opened Bookings
  import opened Time
  import opened Wrappers

  datatype LockKey = LockKey(resource: nat, day: int)

  datatype Phase = Waiting | Locked | Checked | Inserted(id: nat)

  datatype CreateTx = CreateTx(row: Booking, phase: Phase)

  datatype StatusTx = StatusTx(id: nat, next: Status)

  datatype State = State(
    rows: map<nat, Booking>,         // committed bookings
    locks: map<LockKey, nat>,        // day lock -> transaction holding it
    creates: map<nat, CreateTx>,
    updates: map<nat, StatusTx>,     // status changes checked but not yet written
    constrained: bool)               // the exclusion constraint is installed

  datatype Step =
    | Begin(tx: nat, row: Booking, autoConfirm: bool)
    | Lock(tx: nat)
    | Check(tx: nat)
    | Insert(tx: nat, id: nat)
    | Commit(tx: nat)
    | Abort(tx: nat)
    | ReadStatus(tx: nat, id: nat, next: Status)
    | WriteStatus(tx: nat)

  function Initial(constrained: bool): State { State(map[], map[], map[], map[], constrained) }

  function Key(row: Booking, offset: int): LockKey {
    LockKey(row.resource, LocalDay(row.startsAt, Fixed(offset)))
  }

  /** The row went through the working-hours check with its own service, resource and settings. */
  ghost predicate PassedHours(row: Booking, offset: int) {
    exists r: Request ::
      && ValidRequest(r) && r.offset == Fixed(offset) && Offered(r, row.startsAt)
      && row.blockStartsAt == BlockStart(r, row.startsAt)
      && row.blockEndsAt == BlockEnd(r, row.startsAt)
  }

  /** A new booking is confirmed at once when the tenant's setting says so, and pending otherwise. */
  predicate FirstStatus(row: Booking, autoConfirm: bool) {
    row.status == if autoConfirm then CONFIRMED else PENDING
  }

  predicate ConflictFor(s: State, row: Booking) {
    exists i :: i in s.rows && Conflicts(s.rows[i], row)
  }

  function Release(s: State, tx: nat, offset: int): State
    requires tx in s.creates
  {
    var c := s.creates[tx];
    s.(creates := s.creates - {tx},
       locks := if c.phase == Waiting then s.locks else s.locks - {Key(c.row, offset)})
  }

  /** The constraint makes a row that is to be live wait for overlapping uncommitted ones. */
  predicate MustWait(s: State, row: Booking) {
    s.constrained && exists t :: t in s.creates && s.creates[t].phase.Inserted? && Overlap(row, s.creates[t].row)
  }

  predicate TakenBy(s: State, id: nat, j: nat)
    requires id in s.rows
  {
    j in s.rows && j != id && Live(s.rows[j].status) && Overlap(s.rows[j], s.rows[id])
  }

  /** The constraint refuses to make row `id` live while a committed live row overlaps it. */
  predicate Refused(s: State, id: nat, next: Status)
    requires id in s.rows
  {
    s.constrained && Live(next) && exists j :: j in s.rows && TakenBy(s, id, j)
  }

  ghost predicate Enabled(s: State, step: Step, offset: int) {
    match step
    case Begin(tx, row, autoConfirm) => tx !in s.creates && FirstStatus(row, autoConfirm) && PassedHours(row, offset)
    case Lock(tx) => tx in s.creates && s.creates[tx].phase == Waiting && Key(s.creates[tx].row, offset) !in s.locks
    case Check(tx) => tx in s.creates && s.creates[tx].phase == Locked
    case Insert(tx, id) =>
      && tx in s.creates && s.creates[tx].phase == Checked
      && id !in s.rows && (forall t :: t in s.creates ==> s.creates[t].phase != Inserted(id))
      && !MustWait(s, s.creates[tx].row)
    case Commit(tx) => tx in s.creates && s.creates[tx].phase.Inserted?
    case Abort(tx) => tx in s.creates
    case ReadStatus(tx, id, next) => tx !in s.updates && id in s.rows && Allowed(s.rows[id].status, next)
    case WriteStatus(tx) =>
      && tx in s.updates && s.updates[tx].id in s.rows
      && (Live(s.updates[tx].next) ==> !MustWait(s, s.rows[s.updates[tx].id]))
  }

  ghost function Apply(s: State, step: Step, offset: int): State
    requires Enabled(s, step, offset)
  {
    match step
    case Begin(tx, row, _) => s.(creates := s.creates[tx := CreateTx(row, Waiting)])
    case Lock(tx) =>
      var c := s.creates[tx];
      s.(creates := s.creates[tx := c.(phase := Locked)], locks := s.locks[Key(c.row, offset) := tx])
    case Check(tx) =>
      var c := s.creates[tx];
      if ConflictFor(s, c.row) then Release(s, tx, offset)
      else s.(creates := s.creates[tx := c.(phase := Checked)])
    case Insert(tx, id) =>
      if s.constrained && ConflictFor(s, s.creates[tx].row) then Release(s, tx, offset)
      else s.(creates := s.creates[tx := s.creates[tx].(phase := Inserted(id))])
    case Commit(tx) =>
      var c := s.creates[tx];
      Release(s, tx, offset).(rows := s.rows[c.phase.id := c.row])
    case Abort(tx) => Release(s, tx, offset)
    case ReadStatus(tx, id, next) => s.(updates := s.updates[tx := StatusTx(id, next)])
    case WriteStatus(tx) =>
      var u := s.updates[tx];
      if Refused(s, u.id, u.next) then s.(updates := s.updates - {tx})
      else s.(rows := s.rows[u.id := s.rows[u.id].(status := u.next)], updates := s.updates - {tx})
  }

  // ── safety ──

  predicate Overlap(a: Booking, b: Booking) {
    a.resource == b.resource
    && RangesOverlap(a.blockStartsAt, a.blockEndsAt, b.blockStartsAt, b.blockEndsAt)
  }

  /** No two live bookings of one resource have overlapping buffered blocks. */
  ghost predicate NoDoubleBooking(s: State) {
    forall i, j :: i in s.rows && j in s.rows && i != j && Live(s.rows[i].status) && Live(s.rows[j].status)
      ==> !Overlap(s.rows[i], s.rows[j])
  }

  /** The block lies inside the local day of the start, in UTC. */
  predicate Confined(row: Booking, offset: int) {
    var midnight := Wall(LocalDay(row.startsAt, Fixed(offset)), 0) - offset * MINUTE;
    midnight <= row.blockStartsAt && row.blockEndsAt < midnight + DAY
  }

  ghost predicate LocksHeld(s: State, offset: int) {
    forall t :: t in s.creates && s.creates[t].phase != Waiting ==>
      Key(s.creates[t].row, offset) in s.locks && s.locks[Key(s.creates[t].row, offset)] == t
  }

  predicate PastCheck(c: CreateTx) { c.phase == Checked || c.phase.Inserted? }

  ghost predicate ChecksStand(s: State) {
    forall t, i :: t in s.creates && PastCheck(s.creates[t]) && i in s.rows
      ==> !Conflicts(s.rows[i], s.creates[t].row)
  }

  ghost predicate AllConfined(s: State, offset: int) {
    && (forall i :: i in s.rows ==> Confined(s.rows[i], offset))
    && (forall t :: t in s.creates ==> Confined(s.creates[t].row, offset))
  }

  ghost predicate FreshIds(s: State) {
    && (forall t :: t in s.creates && s.creates[t].phase.Inserted? ==> s.creates[t].phase.id !in s.rows)
    && (forall t, u ::
         t in s.creates && u in s.creates && t != u && s.creates[t].phase.Inserted?
         ==> s.creates[u].phase != s.creates[t].phase)
  }

  ghost predicate Inv(s: State, offset: int) {
    && NoDoubleBooking(s) && ChecksStand(s)
    && LocksHeld(s, offset) && AllConfined(s, offset) && FreshIds(s)
  }

  /** A stale status write that brings a cancelled or no-show row back to life. */
  predicate Resurrects(s: State, step: Step) {
    && step.WriteStatus? && step.tx in s.updates && s.updates[step.tx].id in s.rows
    && Live(s.updates[step.tx].next) && !Live(s.rows[s.updates[step.tx].id].status)
  }

  /** Something live, or about to be, occupies the block of row `id`. */
  ghost predicate InTheWay(s: State, id: nat)
    requires id in s.rows
  {
    || (exists j :: j in s.rows && TakenBy(s, id, j))
    || (exists t :: t in s.creates && PastCheck(s.creates[t]) && Overlap(s.rows[id], s.creates[t].row))
  }

  /** A write that revives a row whose block is taken, and that no constraint refuses. */
  ghost predicate TakesBack(s: State, step: Step) {
    && Resurrects(s, step)
    && var u := s.updates[step.tx];
       InTheWay(s, u.id) && !Refused(s, u.id, u.next)
  }

  /** The working-hours check confines every accepted block to its own local day. */
  lemma PassedHoursConfines(row: Booking, offset: int)
    requires PassedHours(row, offset)
    ensures Confined(row, offset)
  {
    var r: Request :| ValidRequest(r) && r.offset == Fixed(offset) && Offered(r, row.startsAt)
      && row.blockStartsAt == BlockStart(r, row.startsAt) && row.blockEndsAt == BlockEnd(r, row.startsAt);
    OfferedBlockInsideDay(r, offset, row.startsAt);
  }

  /** Blocks confined to different local days cannot overlap. */
  lemma DifferentDaysDisjoint(a: Booking, b: Booking, offset: int)
    requires Confined(a, offset) && Confined(b, offset)
    requires LocalDay(a.startsAt, Fixed(offset)) != LocalDay(b.startsAt, Fixed(offset))
    ensures !Overlap(a, b)
  {
  }

  /** Two transactions past their check hold different locks, so their blocks are disjoint. */
  lemma CheckedCreatesDisjoint(s: State, t: nat, u: nat, offset: int)
    requires Inv(s, offset) && t in s.creates && u in s.creates && t != u
    requires s.creates[t].phase != Waiting && s.creates[u].phase != Waiting
    ensures !Overlap(s.creates[t].row, s.creates[u].row)
  {
    var a, b := s.creates[t].row, s.creates[u].row;
    if a.resource == b.resource {
      assert Key(a, offset) != Key(b, offset);
      DifferentDaysDisjoint(a, b, offset);
    }
  }

  lemma CommitKeepsInv(s: State, tx: nat, offset: int)
    requires Inv(s, offset) && Enabled(s, Commit(tx), offset)
    ensures Inv(Apply(s, Commit(tx), offset), offset)
  {
    var s' := Apply(s, Commit(tx), offset);
    var c := s.creates[tx];
    forall i | i in s.rows && Live(s.rows[i].status) ensures !Overlap(s.rows[i], c.row) {
      assert !Conflicts(s.rows[i], c.row);
    }
    forall t | t in s'.creates && PastCheck(s'.creates[t]) ensures !Overlap(c.row, s'.creates[t].row) {
      CheckedCreatesDisjoint(s, tx, t, offset);
    }
  }

  /**
   * With or without the constraint, a status write is safe exactly when it does not resurrect a
   * dead row whose block has been taken in the meantime.
   */
  lemma WriteStatusExact(s: State, tx: nat, offset: int)
    requires Inv(s, offset) && Enabled(s, WriteStatus(tx), offset)
    ensures Inv(Apply(s, WriteStatus(tx), offset), offset) <==> !TakesBack(s, WriteStatus(tx))
  {
    var u := s.updates[tx];
    var s' := Apply(s, WriteStatus(tx), offset);
    if TakesBack(s, WriteStatus(tx)) {
      if j :| j in s.rows && TakenBy(s, u.id, j) {
        assert Overlap(s'.rows[j], s'.rows[u.id]);
        assert !NoDoubleBooking(s');
      } else {
        var t :| t in s.creates && PastCheck(s.creates[t]) && Overlap(s.rows[u.id], s.creates[t].row);
        assert Conflicts(s'.rows[u.id], s'.creates[t].row);
        assert !ChecksStand(s');
      }
    } else {
      WriteStatusSafe(s, tx, offset);
    }
  }

  lemma WriteStatusSafe(s: State, tx: nat, offset: int)
    requires Inv(s, offset) && Enabled(s, WriteStatus(tx), offset)
    requires !TakesBack(s, WriteStatus(tx))
    ensures Inv(Apply(s, WriteStatus(tx), offset), offset)
  {
    var u := s.updates[tx];
    var s' := Apply(s, WriteStatus(tx), offset);
    if Refused(s, u.id, u.next) { return; }
    forall i, j | i in s'.rows && j in s'.rows && i != j && Live(s'.rows[i].status) && Live(s'.rows[j].status)
      ensures !Overlap(s'.rows[i], s'.rows[j])
    {
      assert Overlap(s.rows[i], s.rows[j]) <==> Overlap(s.rows[j], s.rows[i]);
      assert TakenBy(s, u.id, j) <==> j != u.id && Live(s.rows[j].status) && Overlap(s.rows[j], s.rows[u.id]);
      assert TakenBy(s, u.id, i) <==> i != u.id && Live(s.rows[i].status) && Overlap(s.rows[i], s.rows[u.id]);
    }
    forall t, i | t in s'.creates && PastCheck(s'.creates[t]) && i in s'.rows
      ensures !Conflicts(s'.rows[i], s'.creates[t].row)
    {
      assert !Conflicts(s.rows[i], s.creates[t].row);
    }
  }

  lemma ReleaseKeepsInv(s: State, tx: nat, offset: int)
    requires Inv(s, offset) && tx in s.creates
    ensures Inv(Release(s, tx, offset), offset)
  {
  }

  lemma LockKeepsInv(s: State, tx: nat, offset: int)
    requires Inv(s, offset) && Enabled(s, Lock(tx), offset)
    ensures Inv(Apply(s, Lock(tx), offset), offset)
  {
  }

  lemma CheckKeepsInv(s: State, tx: nat, offset: int)
    requires Inv(s, offset) && Enabled(s, Check(tx), offset)
    ensures Inv(Apply(s, Check(tx), offset), offset)
  {
    if ConflictFor(s, s.creates[tx].row) { ReleaseKeepsInv(s, tx, offset); }
  }

  lemma InsertKeepsInv(s: State, tx: nat, id: nat, offset: int)
    requires Inv(s, offset) && Enabled(s, Insert(tx, id), offset)
    ensures Inv(Apply(s, Insert(tx, id), offset), offset)
  {
    if ConflictFor(s, s.creates[tx].row) { ReleaseKeepsInv(s, tx, offset); }
  }

  lemma BeginKeepsInv(s: State, tx: nat, row: Booking, autoConfirm: bool, offset: int)
    requires Inv(s, offset) && Enabled(s, Begin(tx, row, autoConfirm), offset)
    ensures Inv(Apply(s, Begin(tx, row, autoConfirm), offset), offset)
  {
    PassedHoursConfines(row, offset);
  }

  lemma ReadKeepsInv(s: State, step: Step, offset: int)
    requires Inv(s, offset) && Enabled(s, step, offset) && step.ReadStatus?
    ensures Inv(Apply(s, step, offset), offset)
  {
  }

  /** Every step keeps the invariant, save a write that revives a row whose block is taken. */
  lemma StepKeepsInv(s: State, step: Step, offset: int)
    requires Inv(s, offset) && Enabled(s, step, offset) && !TakesBack(s, step)
    ensures Inv(Apply(s, step, offset), offset)
  {
    match step
    case Begin(tx, row, autoConfirm) => BeginKeepsInv(s, tx, row, autoConfirm, offset);
    case Lock(tx) => LockKeepsInv(s, tx, offset);
    case Check(tx) => CheckKeepsInv(s, tx, offset);
    case Insert(tx, id) => InsertKeepsInv(s, tx, id, offset);
    case Commit(tx) => CommitKeepsInv(s, tx, offset);
    case Abort(tx) => ReleaseKeepsInv(s, tx, offset);
    case ReadStatus(_, _, _) => ReadKeepsInv(s, step, offset);
    case WriteStatus(tx) => WriteStatusSafe(s, tx, offset);
  }

  // ── runs ──

  datatype Run = Start | Then(before: Run, step: Step)

  /** The state a run ends in, if every step was enabled when it was taken. */
  ghost function Final(run: Run, offset: int, constrained: bool): Option<State> {
    match run
    case Start => Some(Initial(constrained))
    case Then(before, step) =>
      match Final(before, offset, constrained)
      case None => None
      case Some(s) => if Enabled(s, step, offset) then Some(Apply(s, step, offset)) else None
  }

  /** No status write along the run revives a row whose block is taken. */
  ghost predicate NeverTakesBack(run: Run, offset: int, constrained: bool) {
    run.Then? ==>
      && NeverTakesBack(run.before, offset, constrained)
      && var s := Final(run.before, offset, constrained);
         s.Some? ==> !TakesBack(s.value, run.step)
  }

  lemma {:induction false} RunKeepsInv(run: Run, offset: int, constrained: bool)
    requires Final(run, offset, constrained).Some? && NeverTakesBack(run, offset, constrained)
    ensures Inv(Final(run, offset, constrained).value, offset)
  {
    if run.Then? {
      RunKeepsInv(run.before, offset, constrained);
      StepKeepsInv(Final(run.before, offset, constrained).value, run.step, offset);
    }
  }

  /** What the constraint alone guarantees: committed and inserted live blocks are disjoint. */
  ghost predicate Excluded(s: State) {
    && s.constrained && NoDoubleBooking(s) && FreshIds(s)
    && (forall t, i :: t in s.creates && s.creates[t].phase.Inserted? && i in s.rows
          ==> !Conflicts(s.rows[i], s.creates[t].row))
    && (forall t, u ::
          t in s.creates && u in s.creates && t != u && s.creates[t].phase.Inserted? && s.creates[u].phase.Inserted?
          ==> !Overlap(s.creates[t].row, s.creates[u].row))
  }

  lemma ConstraintHoldsOnWrite(s: State, tx: nat, offset: int)
    requires Excluded(s) && Enabled(s, WriteStatus(tx), offset)
    ensures Excluded(Apply(s, WriteStatus(tx), offset))
  {
    var u := s.updates[tx];
    var s' := Apply(s, WriteStatus(tx), offset);
    if Refused(s, u.id, u.next) { return; }
    forall i, j | i in s'.rows && j in s'.rows && i != j && Live(s'.rows[i].status) && Live(s'.rows[j].status)
      ensures !Overlap(s'.rows[i], s'.rows[j])
    {
      assert Overlap(s.rows[i], s.rows[j]) <==> Overlap(s.rows[j], s.rows[i]);
      assert !TakenBy(s, u.id, i) || i == u.id || !Live(u.next);
      assert !TakenBy(s, u.id, j) || j == u.id || !Live(u.next);
    }
    forall t, i | t in s'.creates && s'.creates[t].phase.Inserted? && i in s'.rows
      ensures !Conflicts(s'.rows[i], s'.creates[t].row)
    {
      assert !Conflicts(s.rows[i], s.creates[t].row);
    }
  }

  /** Under the constraint every step keeps live blocks disjoint, locks and checks or not. */
  lemma ConstraintHolds(s: State, step: Step, offset: int)
    requires Excluded(s) && Enabled(s, step, offset)
    ensures Excluded(Apply(s, step, offset))
  {
    match step
    case WriteStatus(tx) => ConstraintHoldsOnWrite(s, tx, offset);
    case Insert(tx, id) => ConstraintHoldsOnInsert(s, tx, id, offset);
    case Commit(tx) => ConstraintHoldsOnCommit(s, tx, offset);
    case Check(tx) => ConstraintHoldsOnCheck(s, tx, offset);
    case Abort(tx) => ConstraintHoldsOnRelease(s, tx, offset);
    case Lock(tx) => ConstraintHoldsOnLock(s, tx, offset);
    case Begin(_, _, _) =>
    case ReadStatus(_, _, _) =>
  }

  lemma ConstraintHoldsOnRelease(s: State, tx: nat, offset: int)
    requires Excluded(s) && tx in s.creates
    ensures Excluded(Release(s, tx, offset))
  {
  }

  lemma ConstraintHoldsOnLock(s: State, tx: nat, offset: int)
    requires Excluded(s) && Enabled(s, Lock(tx), offset)
    ensures Excluded(Apply(s, Lock(tx), offset))
  {
  }

  lemma ConstraintHoldsOnCheck(s: State, tx: nat, offset: int)
    requires Excluded(s) && Enabled(s, Check(tx), offset)
    ensures Excluded(Apply(s, Check(tx), offset))
  {
    if ConflictFor(s, s.creates[tx].row) { ConstraintHoldsOnRelease(s, tx, offset); }
  }

  lemma ConstraintHoldsOnInsert(s: State, tx: nat, id: nat, offset: int)
    requires Excluded(s) && Enabled(s, Insert(tx, id), offset)
    ensures Excluded(Apply(s, Insert(tx, id), offset))
  {
    var row := s.creates[tx].row;
    if ConflictFor(s, row) { ConstraintHoldsOnRelease(s, tx, offset); }
    forall t | t in s.creates && t != tx && s.creates[t].phase.Inserted?
      ensures !Overlap(row, s.creates[t].row) && !Overlap(s.creates[t].row, row)
    {
    }
  }

  lemma ConstraintHoldsOnCommit(s: State, tx: nat, offset: int)
    requires Excluded(s) && Enabled(s, Commit(tx), offset)
    ensures Excluded(Apply(s, Commit(tx), offset))
  {
    var row := s.creates[tx].row;
    forall i | i in s.rows && Live(s.rows[i].status) ensures !Overlap(s.rows[i], row) && !Overlap(row, s.rows[i]) {
      assert !Conflicts(s.rows[i], row);
    }
    forall t | t in s.creates && t != tx && s.creates[t].phase.Inserted?
      ensures !Conflicts(row, s.creates[t].row)
    {
      assert !Overlap(row, s.creates[t].row);
    }
  }

  lemma {:induction false} ConstrainedRunExcludes(run: Run, offset: int)
    requires Final(run, offset, true).Some?
    ensures Excluded(Final(run, offset, true).value)
  {
    if run.Then? {
      ConstrainedRunExcludes(run.before, offset);
      ConstraintHolds(Final(run.before, offset, true).value, run.step, offset);
    }
  }

  /**
   * No two live bookings of one resource overlap, in any interleaving of any number of creates,
   * aborts and status changes: with the constraint, always; without it, whenever no stale write
   * revives a row whose block is taken.
   */
  lemma NoRunDoubleBooks(run: Run, offset: int, constrained: bool)
    requires Final(run, offset, constrained).Some?
    requires constrained || NeverTakesBack(run, offset, constrained)
    ensures NoDoubleBooking(Final(run, offset, constrained).value)
  {
    if constrained { ConstrainedRunExcludes(run, offset); } else { RunKeepsInv(run, offset, constrained); }
  }

  /** In those runs two bookings of one resource, neither cancelled nor missed, are one after the other. */
  lemma BookingsFollowEachOther(run: Run, offset: int, constrained: bool, i: nat, j: nat)
    requires Final(run, offset, constrained).Some?
    requires constrained || NeverTakesBack(run, offset, constrained)
    requires var rows := Final(run, offset, constrained).value.rows;
      && i in rows && j in rows && i != j && rows[i].resource == rows[j].resource
      && rows[i].status != CANCELLED && rows[i].status != NO_SHOW
      && rows[j].status != CANCELLED && rows[j].status != NO_SHOW
    ensures var rows := Final(run, offset, constrained).value.rows;
      rows[i].blockEndsAt <= rows[j].blockStartsAt || rows[j].blockEndsAt <= rows[i].blockStartsAt
  {
    NoRunDoubleBooks(run, offset, constrained);
    var rows := Final(run, offset, constrained).value.rows;
    assert !Overlap(rows[i], rows[j]);
  }

  /** A status change written in the state it was checked in revives nothing. */
  lemma FreshWritesReviveNothing(s: State, tx: nat, id: nat, next: Status, offset: int)
    requires Enabled(s, ReadStatus(tx, id, next), offset)
    ensures !Resurrects(Apply(s, ReadStatus(tx, id, next), offset), WriteStatus(tx))
  {
  }

  // ── the status a booking starts with ──

  /** Some create of the run began with this row, under this setting of its tenant. */
  predicate BegunAs(run: Run, row: Booking, autoConfirm: bool) {
    run.Then? && (
      || (run.step.Begin? && run.step.row == row && run.step.autoConfirm == autoConfirm)
      || BegunAs(run.before, row, autoConfirm))
  }

  /** Some status write of the run went to this booking. */
  ghost predicate Touched(run: Run, id: nat, offset: int, constrained: bool) {
    run.Then? && (
      || Touched(run.before, id, offset, constrained)
      || var s := Final(run.before, offset, constrained);
         s.Some? && run.step.WriteStatus? && run.step.tx in s.value.updates && s.value.updates[run.step.tx].id == id)
  }

  predicate AsBegun(run: Run, row: Booking) {
    || (row.status == CONFIRMED && BegunAs(run, row, true))
    || (row.status == PENDING && BegunAs(run, row, false))
  }

  /**
   * Over any run, a booking that no status write has touched is the row its create began with, and
   * still has the status that its tenant's setting gave it then.
   */
  lemma {:induction false} UntouchedKeepsFirstStatus(run: Run, offset: int, constrained: bool)
    requires Final(run, offset, constrained).Some?
    ensures var s := Final(run, offset, constrained).value;
      && (forall t :: t in s.creates ==> AsBegun(run, s.creates[t].row))
      && forall id :: id in s.rows && !Touched(run, id, offset, constrained) ==> AsBegun(run, s.rows[id])
  {
    if run.Then? {
      UntouchedKeepsFirstStatus(run.before, offset, constrained);
      var s := Final(run.before, offset, constrained).value;
      var t := Apply(s, run.step, offset);
      forall row | AsBegun(run.before, row) ensures AsBegun(run, row) {}
      RowsComeFromCreates(s, run.step, offset);
    }
  }

  lemma RowsComeFromCreates(s: State, step: Step, offset: int)
    requires Enabled(s, step, offset)
    ensures var t := Apply(s, step, offset);
      && (forall u :: u in t.creates ==>
            (u in s.creates && t.creates[u].row == s.creates[u].row) || (step.Begin? && t.creates[u].row == step.row))
      && forall id :: id in t.rows ==>
           || (id in s.rows && t.rows[id] == s.rows[id])
           || (exists u :: u in s.creates && t.rows[id] == s.creates[u].row)
           || (step.WriteStatus? && step.tx in s.updates && s.updates[step.tx].id == id && id in s.rows)
  {
  }

  // ── a run that does double-book ──

  /** A create that meets no other transaction, up to its re-check. */
  ghost function UpToLock(s: State, tx: nat, row: Booking, offset: int): State {
    s.(creates := map[tx := CreateTx(row, Locked)], locks := map[Key(row, offset) := tx])
  }

  lemma AloneBegins(s: State, tx: nat, row: Booking, autoConfirm: bool, offset: int)
    requires s.creates == map[] && FirstStatus(row, autoConfirm) && PassedHours(row, offset)
    ensures Enabled(s, Begin(tx, row, autoConfirm), offset)
    ensures Apply(s, Begin(tx, row, autoConfirm), offset) == s.(creates := map[tx := CreateTx(row, Waiting)])
  {
  }

  lemma WaitingLocks(s: State, tx: nat, row: Booking, offset: int)
    requires s.creates == map[tx := CreateTx(row, Waiting)] && s.locks == map[]
    ensures Enabled(s, Lock(tx), offset)
    ensures Apply(s, Lock(tx), offset)
      == s.(creates := map[tx := CreateTx(row, Locked)], locks := map[Key(row, offset) := tx])
  {
  }

  lemma AloneRefused(s: State, tx: nat, row: Booking, offset: int)
    requires s.creates == map[] && s.locks == map[]
    ensures Enabled(UpToLock(s, tx, row, offset), Check(tx), offset)
    ensures ConflictFor(UpToLock(s, tx, row, offset), row) == ConflictFor(s, row)
    ensures ConflictFor(s, row) ==> Apply(UpToLock(s, tx, row, offset), Check(tx), offset) == s
  {
    assert map[tx := CreateTx(row, Locked)] - {tx} == map[];
    assert map[Key(row, offset) := tx] - {Key(row, offset)} == map[];
  }

  lemma AloneSteps(s: State, tx: nat, row: Booking, autoConfirm: bool, offset: int)
    requires s.creates == map[] && s.locks == map[]
    requires FirstStatus(row, autoConfirm) && PassedHours(row, offset)
    ensures Enabled(s, Begin(tx, row, autoConfirm), offset)
    ensures Enabled(Apply(s, Begin(tx, row, autoConfirm), offset), Lock(tx), offset)
    ensures Apply(Apply(s, Begin(tx, row, autoConfirm), offset), Lock(tx), offset) == UpToLock(s, tx, row, offset)
    ensures Enabled(UpToLock(s, tx, row, offset), Check(tx), offset)
    ensures ConflictFor(UpToLock(s, tx, row, offset), row) == ConflictFor(s, row)
    ensures ConflictFor(s, row) ==> Apply(UpToLock(s, tx, row, offset), Check(tx), offset) == s
  {
    AloneBegins(s, tx, row, autoConfirm, offset);
    WaitingLocks(s.(creates := map[tx := CreateTx(row, Waiting)]), tx, row, offset);
    AloneRefused(s, tx, row, offset);
  }

  lemma AloneCommits(s: State, tx: nat, row: Booking, id: nat, offset: int)
    requires s.creates == map[] && s.locks == map[] && id !in s.rows
    requires !ConflictFor(s, row)
    ensures Enabled(UpToLock(s, tx, row, offset), Check(tx), offset)
    ensures var c := Apply(UpToLock(s, tx, row, offset), Check(tx), offset);
      && Enabled(c, Insert(tx, id), offset)
      && var d := Apply(c, Insert(tx, id), offset);
         Enabled(d, Commit(tx), offset) && Apply(d, Commit(tx), offset) == s.(rows := s.rows[id := row])
  {
    AloneInserts(s, tx, row, id, offset, UpToLock(s, tx, row, offset));
  }

  lemma AloneInserts(s: State, tx: nat, row: Booking, id: nat, offset: int, locked: State)
    requires id !in s.rows && !ConflictFor(s, row)
    requires s.creates == map[] && s.locks == map[]
    requires locked == s.(creates := map[tx := CreateTx(row, Locked)], locks := map[Key(row, offset) := tx])
    ensures Enabled(locked, Check(tx), offset)
    ensures var c := Apply(locked, Check(tx), offset);
      && Enabled(c, Insert(tx, id), offset)
      && var d := Apply(c, Insert(tx, id), offset);
         Enabled(d, Commit(tx), offset) && Apply(d, Commit(tx), offset) == s.(rows := s.rows[id := row])
  {
    assert ConflictFor(locked, row) == ConflictFor(s, row);
    var c := Apply(locked, Check(tx), offset);
    assert c == locked.(creates := map[tx := CreateTx(row, Checked)]);
    assert ConflictFor(c, row) == ConflictFor(s, row) && !MustWait(c, row);
    var d := Apply(c, Insert(tx, id), offset);
    assert d == locked.(creates := map[tx := CreateTx(row, Inserted(id))]);
    assert d.creates - {tx} == map[] && d.locks - {Key(row, offset)} == map[];
  }

  lemma Extend(run: Run, s: State, step: Step, offset: int, constrained: bool) returns (longer: Run, t: State)
    requires Final(run, offset, constrained) == Some(s) && Enabled(s, step, offset)
    ensures longer == Then(run, step) && t == Apply(s, step, offset)
    ensures Final(longer, offset, constrained) == Some(t)
  {
    longer, t := Then(run, step), Apply(s, step, offset);
  }

  lemma BookAlone(run: Run, s: State, row: Booking, autoConfirm: bool, id: nat, offset: int, constrained: bool)
    returns (longer: Run)
    requires Final(run, offset, constrained) == Some(s)
    requires s.creates == map[] && s.locks == map[] && id !in s.rows
    requires FirstStatus(row, autoConfirm) && PassedHours(row, offset) && !ConflictFor(s, row)
    ensures Final(longer, offset, constrained) == Some(s.(rows := s.rows[id := row]))
  {
    AloneSteps(s, 0, row, autoConfirm, offset);
    AloneCommits(s, 0, row, id, offset);
    var t: State;
    longer, t := Extend(run, s, Begin(0, row, autoConfirm), offset, constrained);
    longer, t := Extend(longer, t, Lock(0), offset, constrained);
    longer, t := Extend(longer, t, Check(0), offset, constrained);
    longer, t := Extend(longer, t, Insert(0, id), offset, constrained);
    longer, t := Extend(longer, t, Commit(0), offset, constrained);
  }

  lemma NineOClockPasses() returns (row: Booking)
    ensures row.status == CONFIRMED && row.blockStartsAt < row.blockEndsAt && PassedHours(row, 0)
  {
    FixedOffsetDay(1, 540, 0);
    FixedOffsetDay(1, 720, 0);
    var open := OpenNineToSix();
    var t := Wall(1, 540);
    var r := Request(1, Fixed(0), t, 60, 0, 0, 0, 0, [open], [],
      [ScheduleWindow(WeekdayOf(1), open.start, open.end)], [], 15, 0, 1);
    NineToSix(r, open, t);
    row := Booking(0, CONFIRMED, t, t + 60 * MINUTE, BlockStart(r, t), BlockEnd(r, t));
  }

  /**
   * Without the constraint and without that condition the property fails. A staff member's ARRIVED
   * is checked while the booking is CONFIRMED; a cancellation commits, the slot is sold again, and
   * then ARRIVED is written: two live bookings hold one slot.
   */
  lemma ResurrectionDoubleBooks()
    ensures exists run :: Final(run, 0, false).Some? && !NoDoubleBooking(Final(run, 0, false).value)
  {
    var run, s, row := UntilSoldAgain(false);
    run, s := Extend(run, s, WriteStatus(0), 0, false);
    assert Live(s.rows[0].status) && Live(s.rows[1].status) && Overlap(s.rows[0], s.rows[1]);
  }

  /** The same run under the constraint: the last write is refused, and its booking stays cancelled. */
  lemma ConstraintRefusesResurrection()
    ensures exists run ::
      && Final(run, 0, true).Some? && Final(Then(run, WriteStatus(0)), 0, true).Some?
      && Resurrects(Final(run, 0, true).value, WriteStatus(0))
      && Final(Then(run, WriteStatus(0)), 0, true).value.rows == Final(run, 0, true).value.rows
  {
    var before, s, row := UntilSoldAgain(true);
    assert TakenBy(s, 0, 1);
    var run, t := Extend(before, s, WriteStatus(0), 0, true);
  }

  lemma UntilCancelled(row: Booking, constrained: bool) returns (run: Run, s: State)
    requires row.status == CONFIRMED && PassedHours(row, 0)
    ensures Final(run, 0, constrained) == Some(s)
    ensures s == State(map[0 := row.(status := CANCELLED)], map[], map[], map[0 := StatusTx(0, ARRIVED)], constrained)
  {
    run := BookAlone(Start, Initial(constrained), row, true, 0, 0, constrained);
    run, s := BothReadOneCancels(run, row, constrained);
  }

  /** One booking, read by two staff members; one of them cancels it. */
  lemma BothReadOneCancels(run: Run, row: Booking, constrained: bool) returns (longer: Run, s: State)
    requires row.status == CONFIRMED
    requires Final(run, 0, constrained) == Some(State(map[0 := row], map[], map[], map[], constrained))
    ensures Final(longer, 0, constrained) == Some(s)
    ensures s == State(map[0 := row.(status := CANCELLED)], map[], map[], map[0 := StatusTx(0, ARRIVED)], constrained)
  {
    s := State(map[0 := row], map[], map[], map[], constrained);
    longer, s := Extend(run, s, ReadStatus(0, 0, ARRIVED), 0, constrained);
    longer, s := Extend(longer, s, ReadStatus(1, 0, CANCELLED), 0, constrained);
    CancelAlone(s, 1, 0, 0);
    longer, s := Extend(longer, s, WriteStatus(1), 0, constrained);
    assert map[0 := StatusTx(0, ARRIVED), 1 := StatusTx(0, CANCELLED)] - {1} == map[0 := StatusTx(0, ARRIVED)];
  }

  lemma CancelAlone(s: State, tx: nat, id: nat, offset: int)
    requires id in s.rows && tx in s.updates && s.updates[tx] == StatusTx(id, CANCELLED)
    ensures Enabled(s, WriteStatus(tx), offset)
    ensures Apply(s, WriteStatus(tx), offset)
      == s.(rows := s.rows[id := s.rows[id].(status := CANCELLED)], updates := s.updates - {tx})
  {
  }

  lemma UntilSoldAgain(constrained: bool) returns (run: Run, s: State, row: Booking)
    ensures Final(run, 0, constrained) == Some(s)
    ensures s == State(
      map[0 := row.(status := CANCELLED), 1 := row], map[], map[], map[0 := StatusTx(0, ARRIVED)], constrained)
    ensures row.status == CONFIRMED && row.blockStartsAt < row.blockEndsAt
  {
    row := NineOClockPasses();
    run, s := UntilCancelled(row, constrained);
    assert !ConflictFor(s, row);
    run := BookAlone(run, s, row, true, 1, 0, constrained);
    s := s.(rows := s.rows[1 := row]);
  }

  /**
   * The row of a booking as it was asked for: confirmed exactly when the tenant confirms at once,
   * lasting as long as the service, and blocked by the larger of the buffers either side.
   */
  predicate Booked(row: Booking, startsAt: int, tenant: Tenant, service: Service, resource: Resource) {
    && row.status == (if tenant.autoConfirm then CONFIRMED else PENDING)
    && row.resource == resource.id && row.startsAt == startsAt
    && row.endsAt == startsAt + service.duration * 60_000
    && row.blockStartsAt == startsAt - 60_000 * (
         if service.bufferBefore >= resource.bufferBefore then service.bufferBefore else resource.bufferBefore)
    && row.blockEndsAt == row.endsAt + 60_000 * (
         if service.bufferAfter >= resource.bufferAfter then service.bufferAfter else resource.bufferAfter)
  }

  /** The bookings are the rows of the table, in some order. */
  ghost predicate Lists(bookings: seq<Booking>, rows: map<nat, Booking>) {
    forall b :: b in bookings <==> exists i :: i in rows && rows[i] == b
  }

  lemma OutcomeOverRows(
    s: State, startsAt: int, now: int, tenant: Tenant, service: Service, resource: Resource, bookings: seq<Booking>)
    requires ValidSetup(tenant, resource) && Lists(bookings, s.rows)
    ensures CreateOutcome(startsAt, now, tenant, service, resource, bookings) ==
      match CreateOutcome(startsAt, now, tenant, service, resource, [])
      case Some(e) => Some(e)
      case None => if ConflictFor(s, NewBooking(startsAt, tenant, service, resource)) then Some(SlotTaken) else None
  {
    var row := NewBooking(startsAt, tenant, service, resource);
    if ConflictFor(s, row) {
      var i :| i in s.rows && Conflicts(s.rows[i], row);
      assert s.rows[i] in bookings;
    }
  }

  // ── the service's own steps ──

  /** The booking tables, and the transactions in flight, as the service changes them. */
  class BookingStore {
    const offset: int
    const constrained: bool
    var rows: map<nat, Booking>
    var locks: map<LockKey, nat>
    var creates: map<nat, CreateTx>
    var updates: map<nat, StatusTx>

    ghost function Snapshot(): State
      reads this
    {
      State(rows, locks, creates, updates, constrained)
    }

    constructor (offset: int, constrained: bool)
      ensures this.offset == offset && Snapshot() == Initial(constrained) && Inv(Snapshot(), offset)
    {
      this.offset, this.constrained := offset, constrained;
      rows, locks, creates, updates := map[], map[], map[], map[];
    }

    method BeginCreate(tx: nat, row: Booking, autoConfirm: bool)
      requires Enabled(Snapshot(), Begin(tx, row, autoConfirm), offset)
      modifies this
      ensures Snapshot() == Apply(old(Snapshot()), Begin(tx, row, autoConfirm), offset)
      ensures old(Inv(Snapshot(), offset)) ==> Inv(Snapshot(), offset)
    {
      if Inv(Snapshot(), offset) { StepKeepsInv(Snapshot(), Begin(tx, row, autoConfirm), offset); }
      creates := creates[tx := CreateTx(row, Waiting)];
    }

    /** INSERT … ON CONFLICT DO NOTHING, then SELECT … FOR UPDATE; not granted means still waiting. */
    method AcquireDayLock(tx: nat) returns (granted: bool)
      requires tx in creates && creates[tx].phase == Waiting
      modifies this
      ensures granted <==> old(Enabled(Snapshot(), Lock(tx), offset))
      ensures granted <==> var row := old(creates)[tx].row;
        LockKey(row.resource, LocalDay(row.startsAt, Fixed(offset))) !in old(locks)
      ensures Snapshot() == if granted then Apply(old(Snapshot()), Lock(tx), offset) else old(Snapshot())
      ensures old(Inv(Snapshot(), offset)) ==> Inv(Snapshot(), offset)
    {
      var key := Key(creates[tx].row, offset);
      granted := key !in locks;
      if granted {
        if Inv(Snapshot(), offset) { StepKeepsInv(Snapshot(), Lock(tx), offset); }
        locks := locks[key := tx];
        creates := creates[tx := creates[tx].(phase := Locked)];
      }
    }

    method Rollback(tx: nat)
      requires tx in creates
      modifies this
      ensures Snapshot() == Apply(old(Snapshot()), Abort(tx), offset)
      ensures old(Inv(Snapshot(), offset)) ==> Inv(Snapshot(), offset)
    {
      if Inv(Snapshot(), offset) { StepKeepsInv(Snapshot(), Abort(tx), offset); }
      var c := creates[tx];
      if c.phase != Waiting { locks := locks - {Key(c.row, offset)}; }
      creates := creates - {tx};
    }

    /** The re-check under the lock; a conflict throws and the transaction is rolled back. */
    method Recheck(tx: nat) returns (refusal: Option<Error>)
      requires tx in creates && creates[tx].phase == Locked
      modifies this
      ensures refusal == if old(ConflictFor(Snapshot(), creates[tx].row)) then Some(SlotTaken) else None
      ensures Snapshot() == Apply(old(Snapshot()), Check(tx), offset)
      ensures old(Inv(Snapshot(), offset)) ==> Inv(Snapshot(), offset)
    {
      if Inv(Snapshot(), offset) { StepKeepsInv(Snapshot(), Check(tx), offset); }
      var conflict := exists i :: i in rows && Conflicts(rows[i], creates[tx].row);
      if conflict {
        locks := locks - {Key(creates[tx].row, offset)};
        creates := creates - {tx};
        return Some(SlotTaken);
      }
      creates := creates[tx := creates[tx].(phase := Checked)];
      return None;
    }

    /** A row the constraint refuses takes its whole transaction with it. */
    method InsertBooking(tx: nat, id: nat) returns (refusal: Option<Error>)
      requires Enabled(Snapshot(), Insert(tx, id), offset)
      modifies this
      ensures refusal == if constrained && old(ConflictFor(Snapshot(), creates[tx].row)) then Some(SlotTaken) else None
      ensures Snapshot() == Apply(old(Snapshot()), Insert(tx, id), offset)
      ensures old(Inv(Snapshot(), offset)) ==> refusal == None && Inv(Snapshot(), offset)
    {
      if Inv(Snapshot(), offset) { StepKeepsInv(Snapshot(), Insert(tx, id), offset); }
      var row := creates[tx].row;
      var conflict := exists i :: i in rows && Conflicts(rows[i], row);
      if constrained && conflict {
        locks := locks - {Key(row, offset)};
        creates := creates - {tx};
        return Some(SlotTaken);
      }
      creates := creates[tx := creates[tx].(phase := Inserted(id))];
      return None;
    }

    method CommitCreate(tx: nat)
      requires tx in creates && creates[tx].phase.Inserted?
      modifies this
      ensures Snapshot() == Apply(old(Snapshot()), Commit(tx), offset)
      ensures old(Inv(Snapshot(), offset)) ==> Inv(Snapshot(), offset)
    {
      if Inv(Snapshot(), offset) { StepKeepsInv(Snapshot(), Commit(tx), offset); }
      var c := creates[tx];
      rows := rows[c.phase.id := c.row];
      locks := locks - {Key(c.row, offset)};
      creates := creates - {tx};
    }

    /** The first half of `updateStatus`: read the row and check the transition. */
    method CheckTransition(tx: nat, id: nat, next: Status) returns (refusal: Option<Error>)
      requires tx !in updates
      modifies this
      ensures refusal == None <==> old(Enabled(Snapshot(), ReadStatus(tx, id, next), offset))
      ensures refusal == None <==> id in old(rows) && (old(rows)[id].status, next) in {
        (PENDING, CONFIRMED), (PENDING, CANCELLED),
        (CONFIRMED, ARRIVED), (CONFIRMED, IN_PROGRESS), (CONFIRMED, COMPLETED), (CONFIRMED, CANCELLED),
        (CONFIRMED, NO_SHOW),
        (ARRIVED, IN_PROGRESS), (ARRIVED, COMPLETED), (ARRIVED, CANCELLED), (ARRIVED, NO_SHOW),
        (IN_PROGRESS, COMPLETED), (IN_PROGRESS, CANCELLED)}
      ensures refusal == Some(NotFound) <==> id !in old(rows)
      ensures refusal == Some(InvalidTransition) <==> id in old(rows) && !Allowed(old(rows)[id].status, next)
      ensures Snapshot() ==
        if refusal == None then Apply(old(Snapshot()), ReadStatus(tx, id, next), offset) else old(Snapshot())
      ensures old(Inv(Snapshot(), offset)) ==> Inv(Snapshot(), offset)
    {
      if id !in rows { return Some(NotFound); }
      if !Allowed(rows[id].status, next) { return Some(InvalidTransition); }
      updates := updates[tx := StatusTx(id, next)];
      return None;
    }

    /** The second half: the write does not look at the status again; only the constraint can refuse it. */
    method WriteTransition(tx: nat) returns (refusal: Option<Error>)
      requires Enabled(Snapshot(), WriteStatus(tx), offset)
      modifies this
      ensures refusal == Some(SlotTaken) <==> old(Refused(Snapshot(), updates[tx].id, updates[tx].next))
      ensures refusal == None <==> !old(Refused(Snapshot(), updates[tx].id, updates[tx].next))
      ensures Snapshot() == Apply(old(Snapshot()), WriteStatus(tx), offset)
      ensures old(Inv(Snapshot(), offset)) ==>
        (Inv(Snapshot(), offset) <==> !old(TakesBack(Snapshot(), WriteStatus(tx))))
    {
      if Inv(Snapshot(), offset) { WriteStatusExact(Snapshot(), tx, offset); }
      var u := updates[tx];
      var taken := exists j :: j in rows && j != u.id && Live(rows[j].status) && Overlap(rows[j], rows[u.id]);
      assert taken <==> exists j :: j in rows && TakenBy(Snapshot(), u.id, j) by {
        if taken {
          var j :| j in rows && j != u.id && Live(rows[j].status) && Overlap(rows[j], rows[u.id]);
          assert TakenBy(Snapshot(), u.id, j);
        }
      }
      updates := updates - {tx};
      if constrained && Live(u.next) && taken { return Some(SlotTaken); }
      rows := rows[u.id := rows[u.id].(status := u.next)];
      return None;
    }

    /** The transaction of `create` with nothing in between. */
    method CreateAlone(tx: nat, id: nat, row: Booking, autoConfirm: bool) returns (refusal: Option<Error>)
      requires creates == map[] && locks == map[] && id !in rows
      requires FirstStatus(row, autoConfirm) && PassedHours(row, offset)
      modifies this
      ensures refusal == if old(ConflictFor(Snapshot(), row)) then Some(SlotTaken) else None
      ensures Snapshot() ==
        if refusal != None then old(Snapshot()) else old(Snapshot()).(rows := old(rows)[id := row])
      ensures old(Inv(Snapshot(), offset)) ==> Inv(Snapshot(), offset)
    {
      ghost var s := Snapshot();
      AloneSteps(s, tx, row, autoConfirm, offset);
      if !ConflictFor(s, row) { AloneCommits(s, tx, row, id, offset); }
      BeginCreate(tx, row, autoConfirm);
      var granted := AcquireDayLock(tx);
      refusal := Recheck(tx);
      if refusal == None {
        refusal := InsertBooking(tx, id);
        CommitCreate(tx);
      }
    }

    /**
     * `create` with nothing in between: refused by exactly the checks of `CreateOutcome`, over the
     * committed rows, or the row is added as it was asked for and nothing else changes.
     */
    method Create(tx: nat, id: nat, startsAt: int, now: int, tenant: Tenant, service: Service, resource: Resource)
      returns (refusal: Option<Error>)
      requires ValidSetup(tenant, resource) && tenant.offset == offset
      requires creates == map[] && locks == map[] && id !in rows
      modifies this
      ensures refusal == Some(SlotTaken) ==>
        old(ConflictFor(Snapshot(), NewBooking(startsAt, tenant, service, resource)))
      ensures refusal == None <==>
        && CreateAccepts(startsAt, now, tenant, service, resource, [])
        && !old(ConflictFor(Snapshot(), NewBooking(startsAt, tenant, service, resource)))
      ensures forall bookings :: Lists(bookings, old(rows)) ==>
        refusal == CreateOutcome(startsAt, now, tenant, service, resource, bookings)
      ensures CreateOutcome(startsAt, now, tenant, service, resource, []).Some? ==>
        refusal == CreateOutcome(startsAt, now, tenant, service, resource, [])
      ensures Snapshot() ==
        if refusal != None then old(Snapshot())
        else old(Snapshot()).(rows := old(rows)[id := NewBooking(startsAt, tenant, service, resource)])
      ensures refusal == None ==>
        && id in rows && Booked(rows[id], startsAt, tenant, service, resource)
        && rows.Keys == old(rows).Keys + {id} && forall i :: i in old(rows) ==> rows[i] == old(rows)[i]
      ensures old(Inv(Snapshot(), offset)) ==> Inv(Snapshot(), offset)
    {
      OutcomeOverTable(Snapshot(), startsAt, now, tenant, service, resource);
      NewBookingIsBooked(startsAt, tenant, service, resource);
      refusal := CheckAndInsert(tx, id, startsAt, now, tenant, service, resource);
    }

    method CheckAndInsert(
      tx: nat, id: nat, startsAt: int, now: int, tenant: Tenant, service: Service, resource: Resource)
      returns (refusal: Option<Error>)
      requires ValidSetup(tenant, resource) && tenant.offset == offset
      requires creates == map[] && locks == map[] && id !in rows
      modifies this
      ensures refusal == match CreateOutcome(startsAt, now, tenant, service, resource, [])
        case Some(e) => Some(e)
        case None =>
          if old(ConflictFor(Snapshot(), NewBooking(startsAt, tenant, service, resource))) then Some(SlotTaken)
          else None
      ensures Snapshot() ==
        if refusal != None then old(Snapshot())
        else old(Snapshot()).(rows := old(rows)[id := NewBooking(startsAt, tenant, service, resource)])
      ensures old(Inv(Snapshot(), offset)) ==> Inv(Snapshot(), offset)
    {
      NewBookingIsBooked(startsAt, tenant, service, resource);
      refusal := CheckCreate(startsAt, now, tenant, service, resource, []);
      if refusal != None { return; }
      AcceptedPassedHours(startsAt, tenant, service, resource);
      refusal := CreateAlone(tx, id, NewBooking(startsAt, tenant, service, resource), tenant.autoConfirm);
    }
  }

  lemma NewBookingIsBooked(startsAt: int, tenant: Tenant, service: Service, resource: Resource)
    ensures Booked(NewBooking(startsAt, tenant, service, resource), startsAt, tenant, service, resource)
    ensures FirstStatus(NewBooking(startsAt, tenant, service, resource), tenant.autoConfirm)
  {
  }

  lemma OutcomeOverTable(
    s: State, startsAt: int, now: int, tenant: Tenant, service: Service, resource: Resource)
    requires ValidSetup(tenant, resource)
    ensures forall bookings :: Lists(bookings, s.rows) ==>
      CreateOutcome(startsAt, now, tenant, service, resource, bookings) ==
        match CreateOutcome(startsAt, now, tenant, service, resource, [])
        case Some(e) => Some(e)
        case None => if ConflictFor(s, NewBooking(startsAt, tenant, service, resource)) then Some(SlotTaken) else None
  {
    forall bookings | Lists(bookings, s.rows)
      ensures CreateOutcome(startsAt, now, tenant, service, resource, bookings) ==
        match CreateOutcome(startsAt, now, tenant, service, resource, [])
        case Some(e) => Some(e)
        case None => if ConflictFor(s, NewBooking(startsAt, tenant, service, resource)) then Some(SlotTaken) else None
    {
      OutcomeOverRows(s, startsAt, now, tenant, service, resource, bookings);
    }
  }

  lemma AcceptedPassedHours(startsAt: int, tenant: Tenant, service: Service, resource: Resource)
    requires ValidSetup(tenant, resource)
    requires Offered(HoursRequest(startsAt, tenant, service, resource), startsAt)
    ensures PassedHours(NewBooking(startsAt, tenant, service, resource), tenant.offset)
  {
  }
}
