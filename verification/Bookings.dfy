/**
 * apps/api/src/modules/bookings/bookings.service.ts: what the availability endpoint offers,
 * what `create` accepts, and how the two relate. The tenant's zone has a fixed offset.
 */
module Bookings {
  import opened Arithmetic
  import opened Availability
  import opened Sorting
  import opened Time
  import opened Wrappers

  datatype Status = PENDING | CONFIRMED | ARRIVED | IN_PROGRESS | COMPLETED | CANCELLED | NO_SHOW

  predicate Live(s: Status) { s != CANCELLED && s != NO_SHOW }

  predicate Allowed(from: Status, next: Status) {
    match from
    case PENDING => next in {CONFIRMED, CANCELLED}
    case CONFIRMED => next in {ARRIVED, IN_PROGRESS, COMPLETED, CANCELLED, NO_SHOW}
    case ARRIVED => next in {IN_PROGRESS, COMPLETED, CANCELLED, NO_SHOW}
    case IN_PROGRESS => next in {COMPLETED, CANCELLED}
    case COMPLETED => false
    case CANCELLED => false
    case NO_SHOW => false
  }

  datatype Booking = Booking(
    resource: nat, status: Status,
    startsAt: int, endsAt: int, blockStartsAt: int, blockEndsAt: int)

  datatype TimeOff = TimeOff(resource: nat, startsAt: int, endsAt: int)

  datatype Service = Service(duration: nat, bufferBefore: nat, bufferAfter: nat)

  /** Opening hours by weekday, 0 for Sunday; a missing weekday is closed. */
  type WeekHours = map<nat, seq<TimeRange>>

  datatype Resource = Resource(
    id: nat, bufferBefore: nat, bufferAfter: nat, schedule: seq<ScheduleWindow>, branchHours: WeekHours)

  datatype Tenant = Tenant(
    offset: int, hours: WeekHours, step: nat, minLeadMinutes: nat, maxAdvanceDays: nat, autoConfirm: bool)

  datatype Error = TooSoon | TooFar | OutsideWorkingHours | SlotTaken | InvalidTransition | NotFound

  function HoursForWeekday(hours: WeekHours, weekday: nat): seq<TimeRange> {
    if weekday in hours then hours[weekday] else []
  }

  predicate ValidHours(hours: WeekHours) { forall d :: d in hours ==> ValidRanges(hours[d]) }

  /** What the API's input schemas guarantee about stored settings. */
  predicate ValidSetup(tenant: Tenant, resource: Resource) {
    && tenant.step >= 1
    && ValidHours(tenant.hours) && ValidHours(resource.branchHours)
    && forall w :: w in resource.schedule ==> IsTimeOfDay(w.startTime) && IsTimeOfDay(w.endTime)
  }

  // ── the two availability requests ──

  function BookingBlocks(bookings: seq<Booking>, resource: nat, from: int, to: int): seq<BlockedRange> {
    if bookings == [] then []
    else
      var b := bookings[0];
      (if b.resource == resource && Live(b.status) && b.blockStartsAt < to && b.blockEndsAt > from
       then [BlockedRange(b.blockStartsAt, b.blockEndsAt)] else [])
      + BookingBlocks(bookings[1..], resource, from, to)
  }

  function TimeOffBlocks(timeOff: seq<TimeOff>, resource: nat, from: int, to: int): seq<BlockedRange> {
    if timeOff == [] then []
    else
      var o := timeOff[0];
      (if o.resource == resource && o.startsAt < to && o.endsAt > from
       then [BlockedRange(o.startsAt, o.endsAt)] else [])
      + TimeOffBlocks(timeOff[1..], resource, from, to)
  }

  /** The request behind one resource's list in `getAvailability`. */
  function QueryRequest(
    day: int, now: int, tenant: Tenant, service: Service, resource: Resource,
    bookings: seq<Booking>, timeOff: seq<TimeOff>): Request
  {
    var weekday := LocalWeekday(Wall(day, 720), Fixed(tenant.offset));
    var windowStart := Wall(day, 0) - DAY;
    var windowEnd := Wall(day, 1439) + 59_000 + DAY;
    Request(
      day, Fixed(tenant.offset), now,
      service.duration, service.bufferBefore, service.bufferAfter,
      resource.bufferBefore, resource.bufferAfter,
      HoursForWeekday(tenant.hours, weekday), HoursForWeekday(resource.branchHours, weekday),
      resource.schedule,
      BookingBlocks(bookings, resource.id, windowStart, windowEnd)
        + TimeOffBlocks(timeOff, resource.id, windowStart, windowEnd),
      tenant.step, tenant.minLeadMinutes, tenant.maxAdvanceDays)
  }

  /** The request behind `assertWithinWorkingHours`: lead time and horizon neutralised, nothing blocked. */
  function HoursRequest(startsAt: int, tenant: Tenant, service: Service, resource: Resource): Request {
    var zone := Fixed(tenant.offset);
    var weekday := LocalWeekday(startsAt, zone);
    Request(
      LocalDay(startsAt, zone), zone, 0,
      service.duration, service.bufferBefore, service.bufferAfter,
      resource.bufferBefore, resource.bufferAfter,
      HoursForWeekday(tenant.hours, weekday), HoursForWeekday(resource.branchHours, weekday),
      resource.schedule, [], tenant.step, 0, 400_000)
  }

  // ── the same, spelled out ──

  /** [lo, hi) is open on the weekday: business hours, branch hours if there are any, and a shift meet there. */
  ghost predicate OpenOn(tenant: Tenant, resource: Resource, weekday: nat, lo: int, hi: int)
    requires ValidSetup(tenant, resource)
  {
    lo < hi && weekday in tenant.hours && exists b, s ::
      && b in tenant.hours[weekday] && s in resource.schedule && s.weekday == weekday
      && if weekday !in resource.branchHours || resource.branchHours[weekday] == [] then AllMeet(b, b, s, lo, hi)
         else exists g :: g in resource.branchHours[weekday] && AllMeet(b, g, s, lo, hi)
  }

  function BlockFrom(t: int, service: Service, resource: Resource): int {
    t - Max(service.bufferBefore, resource.bufferBefore) * 60_000
  }

  function BlockTo(t: int, service: Service, resource: Resource): int {
    t + service.duration * 60_000 + Max(service.bufferAfter, resource.bufferAfter) * 60_000
  }

  /** The n-th grid start of [lo, hi) on the day is `t`, and its buffered block fits. */
  predicate GridStart(
    day: int, tenant: Tenant, service: Service, resource: Resource, lo: int, hi: int, n: nat, t: int)
  {
    var minute := lo + n * tenant.step;
    && lo <= minute - Max(service.bufferBefore, resource.bufferBefore)
    && minute + service.duration + Max(service.bufferAfter, resource.bufferAfter) <= hi
    && t == day * 86_400_000 + minute * 60_000 - tenant.offset * 60_000
  }

  /** No live booking and no time off of the resource meets the block. */
  predicate Clear(t: int, service: Service, resource: Resource, bookings: seq<Booking>, timeOff: seq<TimeOff>) {
    var from, to := BlockFrom(t, service, resource), BlockTo(t, service, resource);
    && (forall b :: b in bookings && b.resource == resource.id && b.status != CANCELLED && b.status != NO_SHOW ==>
          b.blockEndsAt <= from || to <= b.blockStartsAt)
    && (forall o :: o in timeOff && o.resource == resource.id ==> o.endsAt <= from || to <= o.startsAt)
  }

  /** A start on the grid of the day's opening, by the calendar's weekday. */
  ghost predicate OnGrid(day: int, tenant: Tenant, service: Service, resource: Resource, t: int)
    requires ValidSetup(tenant, resource)
  {
    exists lo, hi, n: nat ::
      OpenOn(tenant, resource, CivilWeekday(day), lo, hi) && GridStart(day, tenant, service, resource, lo, hi, n, t)
  }

  lemma OpenIsWorking(r: Request, tenant: Tenant, resource: Resource, weekday: nat, lo: int, hi: int)
    requires ValidSetup(tenant, resource) && ValidRequest(r)
    requires r.businessHours == HoursForWeekday(tenant.hours, weekday)
    requires r.branchHours == HoursForWeekday(resource.branchHours, weekday) && r.schedule == resource.schedule
    ensures Working(r, weekday, lo, hi) <==> OpenOn(tenant, resource, weekday, lo, hi)
  {
  }

  lemma OpenInsideDay(tenant: Tenant, resource: Resource, weekday: nat, lo: int, hi: int)
    requires ValidSetup(tenant, resource) && OpenOn(tenant, resource, weekday, lo, hi)
    ensures 0 <= lo && hi < 1440
  {
  }

  lemma HoursExactly(startsAt: int, tenant: Tenant, service: Service, resource: Resource)
    requires ValidSetup(tenant, resource)
    ensures Offered(HoursRequest(startsAt, tenant, service, resource), startsAt) <==>
      && 0 <= startsAt <= 400_000 * 86_400_000
      && OnGrid(LocalDay(startsAt, Fixed(tenant.offset)), tenant, service, resource, startsAt)
  {
    var h, day := HoursRequest(startsAt, tenant, service, resource), LocalDay(startsAt, Fixed(tenant.offset));
    WeekdayIsCivil(day);
    FixedOffsetDay(day, 720, tenant.offset);
    OfferedExactly(h, startsAt);
    forall lo, hi, n: nat
      ensures Working(h, CivilWeekday(day), lo, hi) <==> OpenOn(tenant, resource, CivilWeekday(day), lo, hi)
      ensures StartsAt(h, lo, hi, n, startsAt) <==>
        0 <= startsAt <= 400_000 * 86_400_000 && GridStart(day, tenant, service, resource, lo, hi, n, startsAt)
    {
      OpenIsWorking(h, tenant, resource, CivilWeekday(day), lo, hi);
    }
  }

  method AssertWithinWorkingHours(startsAt: int, tenant: Tenant, service: Service, resource: Resource)
    returns (ok: bool)
    requires ValidSetup(tenant, resource)
    ensures ok <==> Offered(HoursRequest(startsAt, tenant, service, resource), startsAt)
    ensures ok <==>
      && 0 <= startsAt <= 400_000 * 86_400_000
      && OnGrid(LocalDay(startsAt, Fixed(tenant.offset)), tenant, service, resource, startsAt)
  {
    HoursExactly(startsAt, tenant, service, resource);
    var slots := ComputeAvailability(HoursRequest(startsAt, tenant, service, resource));
    ok := exists s :: s in slots && s.startsAt == startsAt;
    assert ok <==> HasStart(slots, startsAt);
  }

  method GetAvailability(
    day: int, now: int, tenant: Tenant, service: Service, resource: Resource,
    bookings: seq<Booking>, timeOff: seq<TimeOff>) returns (slots: seq<Slot>)
    requires ValidSetup(tenant, resource)
    ensures StrictlySortedBy(SlotStart, slots)
    ensures forall t :: HasStart(slots, t) <==>
      Offered(QueryRequest(day, now, tenant, service, resource, bookings, timeOff), t)
    ensures -720 <= tenant.offset < 720 ==> forall t :: HasStart(slots, t) <==>
      && OnGrid(day, tenant, service, resource, t)
      && now + tenant.minLeadMinutes * 60_000 <= t <= now + tenant.maxAdvanceDays * 86_400_000
      && Clear(t, service, resource, bookings, timeOff)
  {
    if -720 <= tenant.offset < 720 {
      forall t
        ensures Offered(QueryRequest(day, now, tenant, service, resource, bookings, timeOff), t) <==>
          && OnGrid(day, tenant, service, resource, t)
          && now + tenant.minLeadMinutes * 60_000 <= t <= now + tenant.maxAdvanceDays * 86_400_000
          && Clear(t, service, resource, bookings, timeOff)
      {
        ListedExactly(day, now, t, tenant, service, resource, bookings, timeOff);
      }
    }
    slots := ComputeAvailability(QueryRequest(day, now, tenant, service, resource, bookings, timeOff));
  }

  // ── what create accepts ──

  /** The row `create` inserts for a start. */
  function NewBooking(startsAt: int, tenant: Tenant, service: Service, resource: Resource): Booking {
    var bufferBefore := Max(service.bufferBefore, resource.bufferBefore);
    var bufferAfter := Max(service.bufferAfter, resource.bufferAfter);
    var endsAt := startsAt + service.duration * MINUTE;
    Booking(
      resource.id, if tenant.autoConfirm then CONFIRMED else PENDING,
      startsAt, endsAt, startsAt - bufferBefore * MINUTE, endsAt + bufferAfter * MINUTE)
  }

  predicate Conflicts(b: Booking, row: Booking) {
    && b.resource == row.resource && Live(b.status)
    && b.blockStartsAt < row.blockEndsAt && b.blockEndsAt > row.blockStartsAt
  }

  /** The checks of `create`, in the order in which they refuse. */
  ghost function CreateOutcome(
    startsAt: int, now: int, tenant: Tenant, service: Service, resource: Resource, bookings: seq<Booking>)
    : Option<Error>
    requires ValidSetup(tenant, resource)
  {
    if startsAt < now + tenant.minLeadMinutes * MINUTE then Some(TooSoon)
    else if startsAt > now + tenant.maxAdvanceDays * DAY then Some(TooFar)
    else if !Offered(HoursRequest(startsAt, tenant, service, resource), startsAt) then Some(OutsideWorkingHours)
    else if exists b :: b in bookings && Conflicts(b, NewBooking(startsAt, tenant, service, resource))
    then Some(SlotTaken)
    else None
  }

  ghost predicate CreateAccepts(
    startsAt: int, now: int, tenant: Tenant, service: Service, resource: Resource, bookings: seq<Booking>)
    requires ValidSetup(tenant, resource)
  {
    CreateOutcome(startsAt, now, tenant, service, resource, bookings) == None
  }

  method CheckCreate(
    startsAt: int, now: int, tenant: Tenant, service: Service, resource: Resource, bookings: seq<Booking>)
    returns (refusal: Option<Error>)
    requires ValidSetup(tenant, resource)
    ensures refusal == CreateOutcome(startsAt, now, tenant, service, resource, bookings)
  {
    if startsAt < now + tenant.minLeadMinutes * MINUTE { return Some(TooSoon); }
    if startsAt > now + tenant.maxAdvanceDays * DAY { return Some(TooFar); }
    var within := AssertWithinWorkingHours(startsAt, tenant, service, resource);
    if !within { return Some(OutsideWorkingHours); }
    var row := NewBooking(startsAt, tenant, service, resource);
    for i := 0 to |bookings|
      invariant forall k :: 0 <= k < i ==> !Conflicts(bookings[k], row)
    {
      if Conflicts(bookings[i], row) { return Some(SlotTaken); }
    }
    return None;
  }

  /** A time-off row of the resource overlaps the block; `create` never looks at these. */
  ghost predicate TimeOffInTheWay(
    startsAt: int, tenant: Tenant, service: Service, resource: Resource, timeOff: seq<TimeOff>)
  {
    var row := NewBooking(startsAt, tenant, service, resource);
    exists o :: o in timeOff && o.resource == resource.id
      && RangesOverlap(row.blockStartsAt, row.blockEndsAt, o.startsAt, o.endsAt)
  }

  // ── agreement ──

  lemma {:induction false} BookingBlocksMember(
    bookings: seq<Booking>, resource: nat, from: int, to: int, r: BlockedRange)
    ensures r in BookingBlocks(bookings, resource, from, to) <==>
      exists b :: b in bookings && b.resource == resource && Live(b.status)
        && b.blockStartsAt < to && b.blockEndsAt > from
        && r == BlockedRange(b.blockStartsAt, b.blockEndsAt)
  {
    if bookings != [] {
      BookingBlocksMember(bookings[1..], resource, from, to, r);
      assert bookings == [bookings[0]] + bookings[1..];
    }
  }

  lemma {:induction false} TimeOffBlocksMember(
    timeOff: seq<TimeOff>, resource: nat, from: int, to: int, r: BlockedRange)
    ensures r in TimeOffBlocks(timeOff, resource, from, to) <==>
      exists o :: o in timeOff && o.resource == resource && o.startsAt < to && o.endsAt > from
        && r == BlockedRange(o.startsAt, o.endsAt)
  {
    if timeOff != [] {
      TimeOffBlocksMember(timeOff[1..], resource, from, to, r);
      assert timeOff == [timeOff[0]] + timeOff[1..];
    }
  }

  /**
   * An offered start lies on the requested local day, and so does the whole buffered block:
   * this is what lets a per-day lock protect it.
   */
  lemma OfferedBlockInsideDay(r: Request, offset: int, t: int)
    requires ValidRequest(r) && r.offset == Fixed(offset) && Offered(r, t)
    ensures LocalDay(t, Fixed(offset)) == r.day
    ensures Wall(r.day, 0) - offset * MINUTE <= BlockStart(r, t)
    ensures BlockEnd(r, t) < Wall(r.day, 0) - offset * MINUTE + DAY
  {
    WorkingWindowsBounds(r);
    var w, n: nat :| OfferedAt(r, w, n) && t == StartOf(r, GridMinute(w, r.step, n));
    var m := GridMinute(w, r.step, n);
    assert Fits(r, w, m) && 0 <= w.lo && w.hi < 1440;
    FixedOffsetDay(r.day, m, offset);
  }

  /** The weekday `getAvailability` looks up is the requested day's own exactly for offsets in [-12h, +12h). */
  lemma WeekdaysAgree(day: int, offset: int)
    requires -1440 <= offset <= 1440
    ensures LocalWeekday(Wall(day, 720), Fixed(offset)) == WeekdayOf(day) <==> -720 <= offset < 720
  {
    var shifted := Wall(day, 720) + offset * MINUTE;
    assert shifted == DAY * day + (720 + offset) * MINUTE;
    if 720 + offset < 0 {
      assert shifted / DAY == day - 1;
    } else if 720 + offset < 1440 {
      assert shifted / DAY == day;
    } else {
      assert shifted / DAY == day + 1;
    }
  }

  /** Two requests with the same hours, shifts and grid offer the same minutes, block and horizon aside. */
  lemma OfferedTransfers(r: Request, q: Request, t: int)
    requires ValidRequest(r) && ValidRequest(q)
    requires r.day == q.day && r.offset == q.offset && r.step == q.step && r.duration == q.duration
    requires BufferBefore(r) == BufferBefore(q) && BufferAfter(r) == BufferAfter(q)
    requires r.businessHours == q.businessHours && r.branchHours == q.branchHours && r.schedule == q.schedule
    requires Offered(r, t) && InHorizon(q, t) && !Collides(q, t)
    ensures Offered(q, t)
  {
    var w, n: nat :| OfferedAt(r, w, n) && t == StartOf(r, GridMinute(w, r.step, n));
    assert WorkingWindows(r) == WorkingWindows(q);
    assert OfferedAt(q, w, n);
  }

  /** The block of a start lies inside the local day, seen from the query's own bounds. */
  predicate InsideDay(day: int, offset: int, blockStart: int, blockEnd: int) {
    Wall(day, 0) - offset * MINUTE <= blockStart && blockEnd < Wall(day, 0) - offset * MINUTE + DAY
  }

  /** Inside the local day the ±24h query window misses nothing that could collide. */
  lemma CollisionsAreFound(
    day: int, now: int, t: int, tenant: Tenant, service: Service, resource: Resource,
    bookings: seq<Booking>, timeOff: seq<TimeOff>)
    requires -720 <= tenant.offset < 720
    requires var q := QueryRequest(day, now, tenant, service, resource, bookings, timeOff);
      InsideDay(day, tenant.offset, BlockStart(q, t), BlockEnd(q, t))
    ensures Collides(QueryRequest(day, now, tenant, service, resource, bookings, timeOff), t) <==>
      (exists b :: b in bookings && Conflicts(b, NewBooking(t, tenant, service, resource)))
      || TimeOffInTheWay(t, tenant, service, resource, timeOff)
  {
    var q := QueryRequest(day, now, tenant, service, resource, bookings, timeOff);
    var row := NewBooking(t, tenant, service, resource);
    assert row.blockStartsAt == BlockStart(q, t) && row.blockEndsAt == BlockEnd(q, t);
    if Collides(q, t) { CollisionIsReal(day, now, t, tenant, service, resource, bookings, timeOff); }
    forall b | b in bookings && Conflicts(b, row) ensures Collides(q, t) {
      BookingIsFound(day, now, t, tenant, service, resource, bookings, timeOff, b);
    }
    forall o | o in timeOff && o.resource == resource.id
      && RangesOverlap(row.blockStartsAt, row.blockEndsAt, o.startsAt, o.endsAt)
      ensures Collides(q, t)
    {
      TimeOffIsFound(day, now, t, tenant, service, resource, bookings, timeOff, o);
    }
  }

  lemma CollisionIsReal(
    day: int, now: int, t: int, tenant: Tenant, service: Service, resource: Resource,
    bookings: seq<Booking>, timeOff: seq<TimeOff>)
    requires Collides(QueryRequest(day, now, tenant, service, resource, bookings, timeOff), t)
    ensures (exists b :: b in bookings && Conflicts(b, NewBooking(t, tenant, service, resource)))
      || TimeOffInTheWay(t, tenant, service, resource, timeOff)
  {
    var q := QueryRequest(day, now, tenant, service, resource, bookings, timeOff);
    var from, to := Wall(day, 0) - DAY, Wall(day, 1439) + 59_000 + DAY;
    var r :| r in q.blocked && RangesOverlap(BlockStart(q, t), BlockEnd(q, t), r.startsAt, r.endsAt);
    BookingBlocksMember(bookings, resource.id, from, to, r);
    TimeOffBlocksMember(timeOff, resource.id, from, to, r);
  }

  lemma BookingIsFound(
    day: int, now: int, t: int, tenant: Tenant, service: Service, resource: Resource,
    bookings: seq<Booking>, timeOff: seq<TimeOff>, b: Booking)
    requires -720 <= tenant.offset < 720
    requires var q := QueryRequest(day, now, tenant, service, resource, bookings, timeOff);
      InsideDay(day, tenant.offset, BlockStart(q, t), BlockEnd(q, t))
    requires b in bookings && Conflicts(b, NewBooking(t, tenant, service, resource))
    ensures Collides(QueryRequest(day, now, tenant, service, resource, bookings, timeOff), t)
  {
    var q := QueryRequest(day, now, tenant, service, resource, bookings, timeOff);
    var from, to := Wall(day, 0) - DAY, Wall(day, 1439) + 59_000 + DAY;
    var r := BlockedRange(b.blockStartsAt, b.blockEndsAt);
    BookingBlocksMember(bookings, resource.id, from, to, r);
    assert r in q.blocked;
  }

  lemma TimeOffIsFound(
    day: int, now: int, t: int, tenant: Tenant, service: Service, resource: Resource,
    bookings: seq<Booking>, timeOff: seq<TimeOff>, o: TimeOff)
    requires -720 <= tenant.offset < 720
    requires var q := QueryRequest(day, now, tenant, service, resource, bookings, timeOff);
      InsideDay(day, tenant.offset, BlockStart(q, t), BlockEnd(q, t))
      && RangesOverlap(BlockStart(q, t), BlockEnd(q, t), o.startsAt, o.endsAt)
    requires o in timeOff && o.resource == resource.id
    ensures Collides(QueryRequest(day, now, tenant, service, resource, bookings, timeOff), t)
  {
    var q := QueryRequest(day, now, tenant, service, resource, bookings, timeOff);
    var from, to := Wall(day, 0) - DAY, Wall(day, 1439) + 59_000 + DAY;
    var r := BlockedRange(o.startsAt, o.endsAt);
    TimeOffBlocksMember(timeOff, resource.id, from, to, r);
    assert r in q.blocked;
  }

  lemma ClearIsNoCollision(
    t: int, tenant: Tenant, service: Service, resource: Resource, bookings: seq<Booking>, timeOff: seq<TimeOff>)
    ensures Clear(t, service, resource, bookings, timeOff) <==>
      && (forall b :: b in bookings ==> !Conflicts(b, NewBooking(t, tenant, service, resource)))
      && !TimeOffInTheWay(t, tenant, service, resource, timeOff)
  {
  }

  lemma GridBlockInsideDay(
    day: int, tenant: Tenant, service: Service, resource: Resource, lo: int, hi: int, n: nat, t: int, r: Request)
    requires ValidSetup(tenant, resource) && OpenOn(tenant, resource, CivilWeekday(day), lo, hi)
    requires GridStart(day, tenant, service, resource, lo, hi, n, t)
    requires BlockStart(r, t) == BlockFrom(t, service, resource) && BlockEnd(r, t) == BlockTo(t, service, resource)
    ensures Wall(day, 0) - tenant.offset * MINUTE <= BlockStart(r, t)
    ensures BlockEnd(r, t) < Wall(day, 0) - tenant.offset * MINUTE + DAY
  {
    OpenInsideDay(tenant, resource, CivilWeekday(day), lo, hi);
  }

  lemma GridMeetsRequest(
    day: int, now: int, t: int, tenant: Tenant, service: Service, resource: Resource,
    bookings: seq<Booking>, timeOff: seq<TimeOff>, lo: int, hi: int, n: nat)
    requires ValidSetup(tenant, resource) && -720 <= tenant.offset < 720
    requires OpenOn(tenant, resource, CivilWeekday(day), lo, hi)
    ensures StartsAt(QueryRequest(day, now, tenant, service, resource, bookings, timeOff), lo, hi, n, t) <==>
      && GridStart(day, tenant, service, resource, lo, hi, n, t)
      && now + tenant.minLeadMinutes * 60_000 <= t <= now + tenant.maxAdvanceDays * 86_400_000
      && Clear(t, service, resource, bookings, timeOff)
  {
    var q := QueryRequest(day, now, tenant, service, resource, bookings, timeOff);
    if GridStart(day, tenant, service, resource, lo, hi, n, t) {
      GridBlockInsideDay(day, tenant, service, resource, lo, hi, n, t, q);
      CollisionsAreFound(day, now, t, tenant, service, resource, bookings, timeOff);
      ClearIsNoCollision(t, tenant, service, resource, bookings, timeOff);
      NothingBlocked(q, t);
    }
  }

  lemma NothingBlocked(q: Request, t: int)
    ensures !Collides(q, t) <==> forall b :: b in q.blocked ==>
      b.endsAt <= BlockStart(q, t) || BlockEnd(q, t) <= b.startsAt
  {
  }

  /** What the list holds, spelled out: the calendar's weekday, the grid, the horizon, and nothing in the way. */
  lemma ListedExactly(
    day: int, now: int, t: int, tenant: Tenant, service: Service, resource: Resource,
    bookings: seq<Booking>, timeOff: seq<TimeOff>)
    requires ValidSetup(tenant, resource) && -720 <= tenant.offset < 720
    ensures Offered(QueryRequest(day, now, tenant, service, resource, bookings, timeOff), t) <==>
      && OnGrid(day, tenant, service, resource, t)
      && now + tenant.minLeadMinutes * 60_000 <= t <= now + tenant.maxAdvanceDays * 86_400_000
      && Clear(t, service, resource, bookings, timeOff)
  {
    var q := QueryRequest(day, now, tenant, service, resource, bookings, timeOff);
    WeekdaysAgree(day, tenant.offset);
    WeekdayIsCivil(day);
    FixedOffsetDay(day, 720, tenant.offset);
    OfferedExactly(q, t);
    forall lo, hi
      ensures Working(q, CivilWeekday(day), lo, hi) <==> OpenOn(tenant, resource, CivilWeekday(day), lo, hi)
    {
      OpenIsWorking(q, tenant, resource, CivilWeekday(day), lo, hi);
    }
    if Offered(q, t) {
      var lo, hi, n: nat :| Working(q, CivilWeekday(day), lo, hi) && StartsAt(q, lo, hi, n, t);
      GridMeetsRequest(day, now, t, tenant, service, resource, bookings, timeOff, lo, hi, n);
    }
    if OnGrid(day, tenant, service, resource, t) {
      var lo, hi, n: nat :| OpenOn(tenant, resource, CivilWeekday(day), lo, hi)
        && GridStart(day, tenant, service, resource, lo, hi, n, t);
      GridMeetsRequest(day, now, t, tenant, service, resource, bookings, timeOff, lo, hi, n);
    }
  }

  /**
   * The advisory list and the authoritative check agree. On unchanged data and one clock, a
   * start is offered for a day exactly when it falls on that local day, `create` accepts it,
   * and no time off of the resource is in the way.
   */
  lemma OfferedIffAccepted(
    day: int, now: int, t: int, tenant: Tenant, service: Service, resource: Resource,
    bookings: seq<Booking>, timeOff: seq<TimeOff>)
    requires ValidSetup(tenant, resource)
    requires -720 <= tenant.offset < 720
    requires 0 <= now + tenant.minLeadMinutes * MINUTE
    requires now + tenant.maxAdvanceDays * DAY <= 400_000 * DAY
    ensures Offered(QueryRequest(day, now, tenant, service, resource, bookings, timeOff), t) <==>
      && LocalDay(t, Fixed(tenant.offset)) == day
      && CreateAccepts(t, now, tenant, service, resource, bookings)
      && !TimeOffInTheWay(t, tenant, service, resource, timeOff)
  {
    var q := QueryRequest(day, now, tenant, service, resource, bookings, timeOff);
    var h := HoursRequest(t, tenant, service, resource);
    WeekdaysAgree(day, tenant.offset);
    if Offered(q, t) {
      OfferedBlockInsideDay(q, tenant.offset, t);
      CollisionsAreFound(day, now, t, tenant, service, resource, bookings, timeOff);
      OfferedHasNoCollision(q, t);
      OfferedTransfers(q, h, t);
    }
    if LocalDay(t, Fixed(tenant.offset)) == day && CreateAccepts(t, now, tenant, service, resource, bookings)
      && !TimeOffInTheWay(t, tenant, service, resource, timeOff)
    {
      OfferedBlockInsideDay(h, tenant.offset, t);
      CollisionsAreFound(day, now, t, tenant, service, resource, bookings, timeOff);
      OfferedTransfers(h, q, t);
    }
  }

  lemma OfferedHasNoCollision(r: Request, t: int)
    requires ValidRequest(r) && Offered(r, t)
    ensures !Collides(r, t) && InHorizon(r, t)
  {
  }

  /**
   * Outside [-12h, +12h) the agreement fails for every offset: some business is offered a
   * nine o'clock start that `create` then refuses, because the two look up different weekdays.
   */
  lemma OutsideTheRangeTheyDisagree(day: int, offset: int)
    requires -1440 <= offset < -720 || 720 <= offset <= 1440
    ensures exists now, t, tenant, service, resource ::
      && ValidSetup(tenant, resource) && tenant.offset == offset
      && Offered(QueryRequest(day, now, tenant, service, resource, [], []), t)
      && CreateOutcome(t, now, tenant, service, resource, []) == Some(OutsideWorkingHours)
  {
    var open := OpenNineToSix();
    var queried := LocalWeekday(Wall(day, 720), Fixed(offset));
    var tenant := Tenant(offset, map[queried := [open]], 15, 0, 1, true);
    var service := Service(60, 0, 0);
    var resource := Resource(0, 0, 0, [ScheduleWindow(WeekdayOf(day), open.start, open.end)], map[]);
    var t := Wall(day, 540) - offset * MINUTE;
    var q := QueryRequest(day, t, tenant, service, resource, [], []);
    var h := HoursRequest(t, tenant, service, resource);
    WeekdaysAgree(day, offset);
    FixedOffsetDay(day, 540, offset);
    FixedOffsetDay(day, 720, offset);
    NineToSix(q, open, t);
    assert h.businessHours == [] && OpeningHours(h) == {};
    assert !Offered(h, t);
    assert CreateOutcome(t, t, tenant, service, resource, []) == Some(OutsideWorkingHours);
    assert ValidSetup(tenant, resource);
  }

  /**
   * `create` never looks at time off: on any local day there is a start that it accepts, that the
   * slot list withholds, and that lies in the resource's time off.
   */
  lemma AcceptedDuringTimeOff(day: int, offset: int)
    requires -720 <= offset < 720 && 1 <= day < 399_999
    ensures exists now, t, tenant, service, resource, timeOff ::
      && ValidSetup(tenant, resource) && tenant.offset == offset && LocalDay(t, Fixed(offset)) == day
      && CreateAccepts(t, now, tenant, service, resource, [])
      && TimeOffInTheWay(t, tenant, service, resource, timeOff)
      && !Offered(QueryRequest(day, now, tenant, service, resource, [], timeOff), t)
  {
    var open := OpenNineToSix();
    var tenant := Tenant(offset, map[WeekdayOf(day) := [open]], 15, 0, 1, true);
    var service := Service(60, 0, 0);
    var resource := Resource(0, 0, 0, [ScheduleWindow(WeekdayOf(day), open.start, open.end)], map[]);
    var t := Wall(day, 540) - offset * MINUTE;
    var h := HoursRequest(t, tenant, service, resource);
    FixedOffsetDay(day, 540, offset);
    FixedOffsetDay(day, 720, offset);
    NineToSix(h, open, t);
    assert CreateAccepts(t, t, tenant, service, resource, []);
    var off := TimeOff(resource.id, t, t + 60 * MINUTE);
    assert off in [off] && TimeOffInTheWay(t, tenant, service, resource, [off]);
    OfferedIffAccepted(day, t, t, tenant, service, resource, [], [off]);
  }

  lemma SomeTimeOfDay(minutes: int) returns (text: string)
    requires 0 <= minutes < 1440
    ensures IsTimeOfDay(text) && Minutes(text) == minutes
  {
    TimeOfDayFormats(minutes);
    text := TimeOfDayFromMinutes(minutes);
  }

  lemma OpenNineToSix() returns (open: TimeRange)
    ensures ValidRange(open) && ToSpan(open) == Span(540, 1080)
  {
    var from := SomeTimeOfDay(540);
    var to := SomeTimeOfDay(1080);
    open := TimeRange(from, to);
  }

  lemma NineToSix(q: Request, open: TimeRange, t: int)
    requires ValidRange(open) && ToSpan(open) == Span(540, 1080)
    requires q.businessHours == [open] && q.branchHours == [] && q.step >= 1 && q.blocked == []
    requires q.schedule == [ScheduleWindow(NoonWeekday(q), open.start, open.end)]
    requires BufferBefore(q) == 0 && BufferAfter(q) == 0 && q.duration == 60
    requires t == StartOf(q, 540) && InHorizon(q, t)
    ensures ValidRequest(q) && Offered(q, t)
  {
    var w := Span(540, 1080);
    assert open in q.businessHours && w in Spans(q.businessHours);
    assert q.schedule[0] in q.schedule && ShiftSpan(q.schedule[0]) == w;
    assert w in Shifts(q);
    assert Meet(w, w) == w && w in WorkingWindows(q);
    assert GridMinute(w, q.step, 0) == 540;
    assert OfferedAt(q, w, 0);
  }
}
