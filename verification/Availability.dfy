/** apps/api/src/modules/bookings/availability.engine.ts. */
module Availability {
  import opened Arithmetic
  import Calendar
  import opened Digits
  import opened Sorting
  import opened Time
  import opened Wrappers

  datatype ScheduleWindow = ScheduleWindow(weekday: nat, startTime: string, endTime: string)

  datatype BlockedRange = BlockedRange(startsAt: int, endsAt: int)

  datatype Request = Request(
    day: int, offset: Offset, now: int,
    duration: nat,
    serviceBufferBefore: nat, serviceBufferAfter: nat,
    resourceBufferBefore: nat, resourceBufferAfter: nat,
    businessHours: seq<TimeRange>, branchHours: seq<TimeRange>, schedule: seq<ScheduleWindow>,
    blocked: seq<BlockedRange>,
    step: nat, minLeadMinutes: nat, maxAdvanceDays: nat)

  datatype Slot = Slot(startsAt: int, endsAt: int, blockStartsAt: int, blockEndsAt: int, caption: string)

  // ── spans of minutes ──

  datatype Span = Span(lo: int, hi: int) {
    predicate Covers(minute: int) { lo <= minute < hi }
  }

  predicate ValidRange(r: TimeRange) { IsTimeOfDay(r.start) && IsTimeOfDay(r.end) }

  predicate ValidRanges(rs: seq<TimeRange>) { forall r :: r in rs ==> ValidRange(r) }

  function ToSpan(r: TimeRange): Span
    requires ValidRange(r)
  {
    Span(Minutes(r.start), Minutes(r.end))
  }

  ghost function Spans(rs: seq<TimeRange>): set<Span>
    requires ValidRanges(rs)
  {
    set r | r in rs :: ToSpan(r)
  }

  function Meet(a: Span, b: Span): Span { Span(Max(a.lo, b.lo), Min(a.hi, b.hi)) }

  /** Every non-empty intersection of a span of `xs` with a span of `ys`. */
  ghost function Meets(xs: set<Span>, ys: set<Span>): set<Span> {
    set x, y | x in xs && y in ys && Meet(x, y).lo < Meet(x, y).hi :: Meet(x, y)
  }

  ghost predicate CoveredBy(xs: set<Span>, minute: int) {
    exists x :: x in xs && x.Covers(minute)
  }

  /** The intersection of two sets of ranges is the pointwise intersection of their minutes. */
  lemma MeetsIsIntersection(xs: set<Span>, ys: set<Span>, minute: int)
    ensures CoveredBy(Meets(xs, ys), minute) <==> CoveredBy(xs, minute) && CoveredBy(ys, minute)
  {
    if CoveredBy(xs, minute) && CoveredBy(ys, minute) {
      var x :| x in xs && x.Covers(minute);
      var y :| y in ys && y.Covers(minute);
      assert Meet(x, y) in Meets(xs, ys) && Meet(x, y).Covers(minute);
    }
    if CoveredBy(Meets(xs, ys), minute) {
      var w :| w in Meets(xs, ys) && w.Covers(minute);
      var x, y :| x in xs && y in ys && w == Meet(x, y);
      assert x.Covers(minute) && y.Covers(minute);
    }
  }

  function StartMinute(r: TimeRange): int {
    if IsTimeOfDay(r.start) then Minutes(r.start) else 0
  }

  lemma SpansAppend(rs: seq<TimeRange>, r: TimeRange)
    requires ValidRanges(rs) && ValidRange(r)
    ensures ValidRanges(rs + [r])
    ensures Spans(rs + [r]) == Spans(rs) + {ToSpan(r)}
  {
  }

  lemma SpansTake(rs: seq<TimeRange>, i: nat)
    requires ValidRanges(rs) && i < |rs|
    ensures Spans(rs[..i + 1]) == Spans(rs[..i]) + {ToSpan(rs[i])}
  {
    assert rs[..i + 1] == rs[..i] + [rs[i]];
    SpansAppend(rs[..i], rs[i]);
  }

  function MeetOf(x: Span, y: Span): set<Span> {
    if Meet(x, y).lo < Meet(x, y).hi then {Meet(x, y)} else {}
  }

  lemma MeetsRow(x: Span, ys: set<Span>, y: Span)
    ensures Meets({x}, ys + {y}) == Meets({x}, ys) + MeetOf(x, y)
  {
  }

  lemma MeetsColumn(xs: set<Span>, x: Span, ys: set<Span>)
    ensures Meets(xs + {x}, ys) == Meets(xs, ys) + Meets({x}, ys)
  {
  }

  lemma SortedRangesSame(rs: seq<TimeRange>)
    requires ValidRanges(rs)
    ensures ValidRanges(SortBy(StartMinute, rs))
    ensures Spans(SortBy(StartMinute, rs)) == Spans(rs)
  {
    forall r ensures r in SortBy(StartMinute, rs) <==> r in rs {
      SortKeepsElements(StartMinute, rs, r);
    }
  }

  method MinuteRange(start: int, end: int) returns (r: TimeRange)
    requires 0 <= start < 1440 && 0 <= end < 1440
    ensures ValidRange(r) && ToSpan(r) == Span(start, end)
  {
    TimeOfDayFormats(start);
    TimeOfDayFormats(end);
    r := TimeRange(TimeOfDayFromMinutes(start), TimeOfDayFromMinutes(end));
  }

  /** The range pushed for one pair, when the intersection is not empty. */
  method PushMeet(x: Span, y: Span, result: seq<TimeRange>) returns (r: seq<TimeRange>)
    requires ValidRanges(result)
    requires 0 <= x.lo < 1440 && 0 <= x.hi < 1440 && 0 <= y.lo < 1440 && 0 <= y.hi < 1440
    ensures ValidRanges(r) && Spans(r) == Spans(result) + MeetOf(x, y)
  {
    r := result;
    var start, end := Max(x.lo, y.lo), Min(x.hi, y.hi);
    if start < end {
      var next := MinuteRange(start, end);
      SpansAppend(result, next);
      r := result + [next];
    }
  }

  method IntersectRanges(a: seq<TimeRange>, b: seq<TimeRange>) returns (r: seq<TimeRange>)
    requires ValidRanges(a) && ValidRanges(b)
    ensures ValidRanges(r)
    ensures Spans(r) == Meets(Spans(a), Spans(b))
    ensures SortedBy(StartMinute, r)
  {
    var result: seq<TimeRange> := [];
    assert Spans(result) == Meets(Spans(a[..0]), Spans(b));
    for i := 0 to |a|
      invariant ValidRanges(result)
      invariant Spans(result) == Meets(Spans(a[..i]), Spans(b))
    {
      var x := ToSpan(a[i]);
      assert Meets({x}, Spans(b[..0])) == {};
      for j := 0 to |b|
        invariant ValidRanges(result)
        invariant Spans(result) == Meets(Spans(a[..i]), Spans(b)) + Meets({x}, Spans(b[..j]))
      {
        result := PushMeet(x, ToSpan(b[j]), result);
        SpansTake(b, j);
        MeetsRow(x, Spans(b[..j]), ToSpan(b[j]));
      }
      assert b[..|b|] == b;
      SpansTake(a, i);
      MeetsColumn(Spans(a[..i]), x, Spans(b));
    }
    assert a[..|a|] == a;
    r := SortBy(StartMinute, result);
    SortedRangesSame(result);
  }

  // ── what should be offered ──

  function BufferBefore(r: Request): nat { Max(r.serviceBufferBefore, r.resourceBufferBefore) }

  function BufferAfter(r: Request): nat { Max(r.serviceBufferAfter, r.resourceBufferAfter) }

  predicate ValidRequest(r: Request) {
    && r.step >= 1
    && ValidRanges(r.businessHours) && ValidRanges(r.branchHours)
    && forall w :: w in r.schedule ==> IsTimeOfDay(w.startTime) && IsTimeOfDay(w.endTime)
  }

  function ShiftSpan(w: ScheduleWindow): Span
    requires IsTimeOfDay(w.startTime) && IsTimeOfDay(w.endTime)
  {
    Span(Minutes(w.startTime), Minutes(w.endTime))
  }

  /** The weekday the engine reads off local noon. */
  function NoonWeekday(r: Request): nat {
    LocalWeekday(WallToUtc(Wall(r.day, 720), r.offset), r.offset)
  }

  ghost function Shifts(r: Request): set<Span>
    requires ValidRequest(r)
  {
    ShiftsAmong(r.schedule, NoonWeekday(r))
  }

  ghost function ShiftsAmong(schedule: seq<ScheduleWindow>, weekday: nat): set<Span>
    requires forall w :: w in schedule ==> IsTimeOfDay(w.startTime) && IsTimeOfDay(w.endTime)
  {
    set w | w in schedule && w.weekday == weekday :: ShiftSpan(w)
  }

  ghost function OpeningHours(r: Request): set<Span>
    requires ValidRequest(r)
  {
    if r.branchHours == [] then Spans(r.businessHours)
    else Meets(Spans(r.businessHours), Spans(r.branchHours))
  }

  /** The stretches of the day when business, branch and resource are all working. */
  ghost function WorkingWindows(r: Request): set<Span>
    requires ValidRequest(r)
  {
    Meets(OpeningHours(r), Shifts(r))
  }

  lemma WorkingWindowsBounds(r: Request)
    requires ValidRequest(r)
    ensures forall w :: w in WorkingWindows(r) ==> 0 <= w.lo < w.hi < 1440
  {
  }

  function GridMinute(w: Span, step: nat, n: nat): int { w.lo + n * step }

  function StartOf(r: Request, minute: int): int { WallToUtc(Wall(r.day, minute), r.offset) }

  function BlockStart(r: Request, t: int): int { t - BufferBefore(r) * MINUTE }

  function BlockEnd(r: Request, t: int): int { t + r.duration * MINUTE + BufferAfter(r) * MINUTE }

  /** The block around `minute` lies inside the working window. */
  predicate Fits(r: Request, w: Span, minute: int) {
    w.lo <= minute - BufferBefore(r) && minute + r.duration + BufferAfter(r) <= w.hi
  }

  predicate InHorizon(r: Request, t: int) {
    r.now + r.minLeadMinutes * MINUTE <= t <= r.now + r.maxAdvanceDays * DAY
  }

  predicate Collides(r: Request, t: int) {
    exists b :: b in r.blocked && RangesOverlap(BlockStart(r, t), BlockEnd(r, t), b.startsAt, b.endsAt)
  }

  predicate Admissible(r: Request, w: Span, minute: int) {
    && Fits(r, w, minute)
    && InHorizon(r, StartOf(r, minute))
    && !Collides(r, StartOf(r, minute))
  }

  ghost predicate OfferedAt(r: Request, w: Span, n: nat)
    requires ValidRequest(r)
  {
    w in WorkingWindows(r) && Admissible(r, w, GridMinute(w, r.step, n))
  }

  ghost predicate Offered(r: Request, t: int)
    requires ValidRequest(r)
  {
    exists w, n :: OfferedAt(r, w, n) && t == StartOf(r, GridMinute(w, r.step, n))
  }

  /** A slot carries the times and the label of one admissible grid minute. */
  ghost predicate SlotOf(r: Request, s: Slot)
    requires ValidRequest(r)
  {
    exists w, n :: OfferedAt(r, w, n) && s == SlotAt(r, GridMinute(w, r.step, n))
  }

  // ── the same, spelled out ──

  /** The day of the week of a calendar day, 0 for Sunday. */
  ghost function CivilWeekday(day: int): nat { Calendar.DayOfWeek(Calendar.Civil(day)) }

  lemma WeekdayIsCivil(day: int)
    ensures WeekdayOf(day) == CivilWeekday(day)
  {
    Calendar.WeekdayCounts(Calendar.Civil(day));
  }

  /** [lo, hi) is where some business range, some branch range if there are any, and some shift of the weekday meet. */
  ghost predicate Working(r: Request, weekday: nat, lo: int, hi: int)
    requires ValidRequest(r)
  {
    lo < hi && exists b, s ::
      && b in r.businessHours && s in r.schedule && s.weekday == weekday
      && if r.branchHours == [] then AllMeet(b, b, s, lo, hi)
         else exists g :: g in r.branchHours && AllMeet(b, g, s, lo, hi)
  }

  predicate AllMeet(b: TimeRange, g: TimeRange, s: ScheduleWindow, lo: int, hi: int)
    requires ValidRange(b) && ValidRange(g) && IsTimeOfDay(s.startTime) && IsTimeOfDay(s.endTime)
  {
    && lo == Max(Max(Minutes(b.start), Minutes(g.start)), Minutes(s.startTime))
    && hi == Min(Min(Minutes(b.end), Minutes(g.end)), Minutes(s.endTime))
  }

  /** The n-th grid start of [lo, hi) is `t`, its block fits, it is in time, and nothing blocked is in the way. */
  predicate StartsAt(r: Request, lo: int, hi: int, n: nat, t: int) {
    var before := Max(r.serviceBufferBefore, r.resourceBufferBefore);
    var after := Max(r.serviceBufferAfter, r.resourceBufferAfter);
    var minute := lo + n * r.step;
    && lo <= minute - before && minute + r.duration + after <= hi
    && t == WallToUtc(r.day * 86_400_000 + minute * 60_000, r.offset)
    && r.now + r.minLeadMinutes * 60_000 <= t <= r.now + r.maxAdvanceDays * 86_400_000
    && forall b :: b in r.blocked ==>
         b.endsAt <= t - before * 60_000 || t + r.duration * 60_000 + after * 60_000 <= b.startsAt
  }

  ghost predicate OfferedOn(r: Request, weekday: nat, t: int)
    requires ValidRequest(r)
  {
    exists lo, hi, n: nat :: Working(r, weekday, lo, hi) && StartsAt(r, lo, hi, n, t)
  }

  lemma WorkingExactly(r: Request, w: Span)
    requires ValidRequest(r)
    ensures w in WorkingWindows(r) <==> Working(r, NoonWeekday(r), w.lo, w.hi)
  {
    if w in WorkingWindows(r) {
      WindowIsWorking(r, w);
    } else if Working(r, NoonWeekday(r), w.lo, w.hi) {
      WorkingIsWindow(r, w);
    }
  }

  /** `x` is where a business range and, if there are any, a branch range meet. */
  ghost predicate OpenSpan(r: Request, x: Span)
    requires ValidRequest(r)
  {
    exists b :: b in r.businessHours
      && if r.branchHours == [] then x == ToSpan(b)
         else exists g :: g in r.branchHours && x == Meet(ToSpan(b), ToSpan(g)) && x.lo < x.hi
  }

  lemma OpeningExactly(r: Request, x: Span)
    requires ValidRequest(r)
    ensures x in OpeningHours(r) <==> OpenSpan(r, x)
  {
    if r.branchHours != [] && x in OpeningHours(r) {
      var p, q :| p in Spans(r.businessHours) && q in Spans(r.branchHours) && x == Meet(p, q);
      var b :| b in r.businessHours && ToSpan(b) == p;
      var g :| g in r.branchHours && ToSpan(g) == q;
    }
    if r.branchHours != [] && OpenSpan(r, x) {
      var b :| b in r.businessHours && exists g ::
        g in r.branchHours && x == Meet(ToSpan(b), ToSpan(g)) && x.lo < x.hi;
      var g :| g in r.branchHours && x == Meet(ToSpan(b), ToSpan(g)) && x.lo < x.hi;
      assert ToSpan(b) in Spans(r.businessHours) && ToSpan(g) in Spans(r.branchHours);
    }
  }

  lemma WindowIsWorking(r: Request, w: Span)
    requires ValidRequest(r) && w in WorkingWindows(r)
    ensures Working(r, NoonWeekday(r), w.lo, w.hi)
  {
    var x, y :| x in OpeningHours(r) && y in Shifts(r) && w == Meet(x, y) && w.lo < w.hi;
    var s :| s in r.schedule && s.weekday == NoonWeekday(r) && ShiftSpan(s) == y;
    OpeningExactly(r, x);
    OpenAndShift(r, x, s, w);
  }

  lemma OpenAndShift(r: Request, x: Span, s: ScheduleWindow, w: Span)
    requires ValidRequest(r) && OpenSpan(r, x) && s in r.schedule && w == Meet(x, ShiftSpan(s)) && w.lo < w.hi
    ensures Working(r, s.weekday, w.lo, w.hi)
  {
    var b :| b in r.businessHours
      && if r.branchHours == [] then x == ToSpan(b)
         else exists g :: g in r.branchHours && x == Meet(ToSpan(b), ToSpan(g)) && x.lo < x.hi;
    if r.branchHours == [] {
      assert AllMeet(b, b, s, w.lo, w.hi);
    } else {
      var g :| g in r.branchHours && x == Meet(ToSpan(b), ToSpan(g)) && x.lo < x.hi;
      assert AllMeet(b, g, s, w.lo, w.hi);
    }
  }

  lemma WorkingIsWindow(r: Request, w: Span)
    requires ValidRequest(r) && Working(r, NoonWeekday(r), w.lo, w.hi)
    ensures w in WorkingWindows(r)
  {
    var b, s :| b in r.businessHours && s in r.schedule && s.weekday == NoonWeekday(r)
      && if r.branchHours == [] then AllMeet(b, b, s, w.lo, w.hi)
         else exists g :: g in r.branchHours && AllMeet(b, g, s, w.lo, w.hi);
    var x := OpenUnder(r, b, s, w);
    OpeningExactly(r, x);
    assert ShiftSpan(s) in Shifts(r);
  }

  lemma OpenUnder(r: Request, b: TimeRange, s: ScheduleWindow, w: Span) returns (x: Span)
    requires ValidRequest(r) && b in r.businessHours && s in r.schedule && w.lo < w.hi
    requires if r.branchHours == [] then AllMeet(b, b, s, w.lo, w.hi)
             else exists g :: g in r.branchHours && AllMeet(b, g, s, w.lo, w.hi)
    ensures OpenSpan(r, x) && w == Meet(x, ShiftSpan(s))
  {
    if r.branchHours == [] {
      x := ToSpan(b);
    } else {
      var g :| g in r.branchHours && AllMeet(b, g, s, w.lo, w.hi);
      x := Meet(ToSpan(b), ToSpan(g));
      assert x == Meet(ToSpan(b), ToSpan(g)) && x.lo < x.hi;
    }
  }

  lemma AdmissibleExactly(r: Request, w: Span, n: nat, t: int)
    ensures Admissible(r, w, GridMinute(w, r.step, n)) && t == StartOf(r, GridMinute(w, r.step, n))
      <==> StartsAt(r, w.lo, w.hi, n, t)
  {
    assert Collides(r, t) <==> exists b ::
        b in r.blocked && RangesOverlap(BlockStart(r, t), BlockEnd(r, t), b.startsAt, b.endsAt);
  }

  /** What should be offered, with the weekday read off the calendar. */
  lemma OfferedExactly(r: Request, t: int)
    requires ValidRequest(r)
    ensures Offered(r, t) <==> OfferedOn(r, CivilWeekday(LocalDay(StartOf(r, 720), r.offset)), t)
  {
    WeekdayIsCivil(LocalDay(StartOf(r, 720), r.offset));
    if Offered(r, t) {
      var w, n: nat :| OfferedAt(r, w, n) && t == StartOf(r, GridMinute(w, r.step, n));
      WorkingExactly(r, w);
      AdmissibleExactly(r, w, n, t);
    }
    if OfferedOn(r, NoonWeekday(r), t) {
      var lo, hi, n: nat :| Working(r, NoonWeekday(r), lo, hi) && StartsAt(r, lo, hi, n, t);
      var w := Span(lo, hi);
      WorkingExactly(r, w);
      AdmissibleExactly(r, w, n, t);
      assert OfferedAt(r, w, n);
    }
  }

  function SlotAt(r: Request, minute: int): Slot {
    var t := StartOf(r, minute);
    Slot(t, t + r.duration * MINUTE, BlockStart(r, t), BlockEnd(r, t), TimeOfDayFromMinutes(minute))
  }

  /** The appointment lasts the service's duration, and the larger of the buffers is blocked either side. */
  predicate BlockAround(r: Request, s: Slot) {
    && s.endsAt == s.startsAt + r.duration * 60_000
    && s.blockStartsAt == s.startsAt - Max(r.serviceBufferBefore, r.resourceBufferBefore) * 60_000
    && s.blockEndsAt == s.endsAt + Max(r.serviceBufferAfter, r.resourceBufferAfter) * 60_000
  }

  function SlotStart(s: Slot): int { s.startsAt }

  ghost predicate HasStart(slots: seq<Slot>, t: int) { exists s :: s in slots && s.startsAt == t }

  // ── the generator ──

  lemma {:induction false} GridGap(w: Span, step: nat, n: nat, m: nat)
    requires n < m
    ensures GridMinute(w, step, n) + step <= GridMinute(w, step, m)
    decreases m
  {
    if n + 1 < m {
      GridGap(w, step, n, m - 1);
    }
    GridStep(w, step, m - 1);
  }

  lemma GridStep(w: Span, step: nat, n: nat)
    ensures GridMinute(w, step, n) + step == GridMinute(w, step, n + 1)
  {
  }

  ghost predicate Sound(r: Request, slots: seq<Slot>)
    requires ValidRequest(r)
  {
    forall s :: s in slots ==> SlotOf(r, s)
  }

  /** The first `n` grid minutes of the window `w` have been dealt with. */
  ghost predicate Done(r: Request, w: Span, n: nat, slots: seq<Slot>)
    requires ValidRequest(r)
  {
    forall k: nat :: k < n && OfferedAt(r, w, k) ==> HasStart(slots, StartOf(r, GridMinute(w, r.step, k)))
  }

  ghost predicate AllDone(r: Request, w: Span, slots: seq<Slot>)
    requires ValidRequest(r)
  {
    forall n :: Done(r, w, n, slots)
  }

  lemma DoneGrows(r: Request, w: Span, n: nat, small: seq<Slot>, large: seq<Slot>)
    requires ValidRequest(r) && Done(r, w, n, small)
    requires forall s :: s in small ==> s in large
    ensures Done(r, w, n, large)
  {
    forall k: nat | k < n && OfferedAt(r, w, k)
      ensures HasStart(large, StartOf(r, GridMinute(w, r.step, k)))
    {
      var s :| s in small && s.startsAt == StartOf(r, GridMinute(w, r.step, k));
    }
  }

  lemma AllDoneGrows(r: Request, w: Span, small: seq<Slot>, large: seq<Slot>)
    requires ValidRequest(r) && AllDone(r, w, small)
    requires forall s :: s in small ==> s in large
    ensures AllDone(r, w, large)
  {
    forall n: nat ensures Done(r, w, n, large) { DoneGrows(r, w, n, small, large); }
  }

  lemma DoneSkip(r: Request, w: Span, n: nat, slots: seq<Slot>)
    requires ValidRequest(r) && Done(r, w, n, slots) && !OfferedAt(r, w, n)
    ensures Done(r, w, n + 1, slots)
  {
  }

  lemma DonePush(r: Request, w: Span, n: nat, slots: seq<Slot>)
    requires ValidRequest(r) && Sound(r, slots) && Done(r, w, n, slots) && OfferedAt(r, w, n)
    ensures Sound(r, slots + [SlotAt(r, GridMinute(w, r.step, n))])
    ensures Done(r, w, n + 1, slots + [SlotAt(r, GridMinute(w, r.step, n))])
  {
    var s := SlotAt(r, GridMinute(w, r.step, n));
    DoneGrows(r, w, n, slots, slots + [s]);
    assert s in slots + [s];
    assert SlotOf(r, s);
  }

  /** Once a grid minute no longer fits before the end of the window, no later one does. */
  lemma DoneBreak(r: Request, w: Span, n: nat, slots: seq<Slot>)
    requires ValidRequest(r) && Done(r, w, n, slots)
    requires GridMinute(w, r.step, n) + r.duration + BufferAfter(r) > w.hi
    ensures AllDone(r, w, slots)
  {
    forall k: nat | k >= n ensures !OfferedAt(r, w, k) {
      if k > n { GridGap(w, r.step, n, k); }
    }
  }

  /** The candidate at `minute`, unless it is too soon, too far out, or blocked. */
  method Candidate(r: Request, minute: int) returns (slot: Option<Slot>)
    requires ValidRequest(r) && 0 <= minute < 1440
    ensures slot == if InHorizon(r, StartOf(r, minute)) && !Collides(r, StartOf(r, minute))
                    then Some(SlotAt(r, minute)) else None
  {
    var bufferBefore, bufferAfter := BufferBefore(r), BufferAfter(r);
    TimeOfDayRoundTrip(minute);
    var startsAt := ZonedTimeToUtc(r.day, TimeOfDayFromMinutes(minute), r.offset).value;
    var endsAt := startsAt + r.duration * MINUTE;
    var blockStartsAt := startsAt - bufferBefore * MINUTE;
    var blockEndsAt := endsAt + bufferAfter * MINUTE;
    var earliestStart := r.now + r.minLeadMinutes * MINUTE;
    var latestStart := r.now + r.maxAdvanceDays * DAY;
    if startsAt < earliestStart { return None; }
    if startsAt > latestStart { return None; }
    var collides := exists b ::
      b in r.blocked && RangesOverlap(blockStartsAt, blockEndsAt, b.startsAt, b.endsAt);
    if collides { return None; }
    return Some(Slot(startsAt, endsAt, blockStartsAt, blockEndsAt, TimeOfDayFromMinutes(minute)));
  }

  /** One window: push every admissible grid minute. */
  method WindowSlots(r: Request, window: TimeRange, slots: seq<Slot>) returns (out: seq<Slot>)
    requires ValidRequest(r) && ValidRange(window)
    requires ToSpan(window) in WorkingWindows(r)
    requires Sound(r, slots)
    ensures Sound(r, out) && AllDone(r, ToSpan(window), out)
    ensures forall s :: s in slots ==> s in out
  {
    out := slots;
    var windowStart, windowEnd := Minutes(window.start), Minutes(window.end);
    var bufferBefore, bufferAfter := BufferBefore(r), BufferAfter(r);
    var minute: int := windowStart;
    ghost var w := ToSpan(window);
    ghost var n: nat := 0;
    while minute <= windowEnd
      invariant minute == GridMinute(w, r.step, n) && minute >= windowStart
      invariant Sound(r, out) && Done(r, w, n, out)
      invariant forall s :: s in slots ==> s in out
      decreases windowEnd + 1 - minute
    {
      if minute - bufferBefore < windowStart {
        DoneSkip(r, w, n, out);
      } else if minute + r.duration + bufferAfter > windowEnd {
        DoneBreak(r, w, n, out);
        return;
      } else {
        var slot := Candidate(r, minute);
        if slot.Some? {
          DonePush(r, w, n, out);
          out := out + [slot.value];
        } else {
          DoneSkip(r, w, n, out);
        }
      }
      GridStep(w, r.step, n);
      minute := minute + r.step;
      n := n + 1;
    }
    DoneBreak(r, w, n, out);
  }

  /** The slots without those whose start occurs earlier in the list. */
  function FirstPerStart(slots: seq<Slot>): seq<Slot> {
    if slots == [] then []
    else
      var front, last := slots[..|slots| - 1], slots[|slots| - 1];
      FirstPerStart(front) + if last.startsAt in Starts(front) then [] else [last]
  }

  function Starts(slots: seq<Slot>): set<int> { set s | s in slots :: s.startsAt }

  /** No slot before this one has its start. */
  ghost predicate ComesFirst(slots: seq<Slot>, s: Slot) {
    exists i :: 0 <= i < |slots| && slots[i] == s && s.startsAt !in Starts(slots[..i])
  }

  lemma ComesFirstStill(slots: seq<Slot>, s: Slot)
    requires slots != [] && ComesFirst(slots[..|slots| - 1], s)
    ensures ComesFirst(slots, s)
  {
    var front := slots[..|slots| - 1];
    var i :| 0 <= i < |front| && front[i] == s && s.startsAt !in Starts(front[..i]);
    assert slots[..i] == front[..i] && slots[i] == s;
  }

  lemma {:induction false} FirstPerStartExact(slots: seq<Slot>)
    ensures DistinctBy(SlotStart, FirstPerStart(slots))
    ensures forall s :: s in FirstPerStart(slots) ==> s in slots && ComesFirst(slots, s)
    ensures Starts(FirstPerStart(slots)) == Starts(slots)
  {
    if slots != [] {
      var front, last := slots[..|slots| - 1], slots[|slots| - 1];
      FirstPerStartExact(front);
      var kept := FirstPerStart(front);
      forall s | s in kept ensures s in slots && ComesFirst(slots, s) { ComesFirstStill(slots, s); }
      StartsAppend(front, last);
      assert slots == front + [last];
      if last.startsAt !in Starts(front) {
        StartsAppend(kept, last);
        LastComesFirst(slots);
        AppendDistinct(kept, last);
      }
    }
  }

  lemma LastComesFirst(slots: seq<Slot>)
    requires slots != [] && slots[|slots| - 1].startsAt !in Starts(slots[..|slots| - 1])
    ensures ComesFirst(slots, slots[|slots| - 1])
  {
  }

  lemma AppendDistinct(kept: seq<Slot>, s: Slot)
    requires DistinctBy(SlotStart, kept) && s.startsAt !in Starts(kept)
    ensures DistinctBy(SlotStart, kept + [s])
  {
    forall i | 0 <= i < |kept| ensures kept[i].startsAt != s.startsAt {
      assert kept[i] in kept && kept[i].startsAt in Starts(kept);
    }
  }

  lemma StartsAppend(slots: seq<Slot>, s: Slot)
    ensures Starts(slots + [s]) == Starts(slots) + {s.startsAt}
  {
    forall t | t in Starts(slots) + {s.startsAt} ensures t in Starts(slots + [s]) {
      if t != s.startsAt {
        var x :| x in slots && x.startsAt == t;
        assert x in slots + [s];
      } else {
        assert s in slots + [s];
      }
    }
  }

  method DedupeByStart(slots: seq<Slot>) returns (kept: seq<Slot>)
    ensures kept == FirstPerStart(slots)
    ensures DistinctBy(SlotStart, kept)
    ensures forall s :: s in kept ==> s in slots && ComesFirst(slots, s)
    ensures forall t :: HasStart(slots, t) ==> HasStart(kept, t)
  {
    kept := [];
    var seen: set<int> := {};
    for i := 0 to |slots|
      invariant kept == FirstPerStart(slots[..i]) && seen == Starts(slots[..i])
    {
      var key := slots[i].startsAt;
      OneMoreSlot(slots, i);
      if key !in seen {
        seen := seen + {key};
        kept := kept + [slots[i]];
      }
    }
    assert slots[..|slots|] == slots;
    FirstPerStartExact(slots);
    SameStarts(slots, kept);
  }

  lemma OneMoreSlot(slots: seq<Slot>, i: nat)
    requires i < |slots|
    ensures Starts(slots[..i + 1]) == Starts(slots[..i]) + {slots[i].startsAt}
    ensures FirstPerStart(slots[..i + 1])
      == FirstPerStart(slots[..i]) + if slots[i].startsAt in Starts(slots[..i]) then [] else [slots[i]]
  {
    assert slots[..i + 1][..i] == slots[..i] && slots[..i + 1] == slots[..i] + [slots[i]];
    StartsAppend(slots[..i], slots[i]);
  }

  lemma SameStarts(slots: seq<Slot>, kept: seq<Slot>)
    requires Starts(kept) == Starts(slots)
    ensures forall t :: HasStart(slots, t) ==> HasStart(kept, t)
  {
    forall t | HasStart(slots, t) ensures HasStart(kept, t) { assert t in Starts(kept); }
  }

  lemma NoonParses()
    ensures MinutesFromTimeOfDay("12:00") == Some(720)
  {
    var s := "12:00";
    assert s == ['1', '2', ':', '0', '0'];
    SplitPair('1', '2', '0', '0');
    ParseTwo('1', '2');
    ParseTwo('0', '0');
  }

  method GenerateSlots(r: Request) returns (slots: seq<Slot>)
    requires ValidRequest(r)
    ensures StrictlySortedBy(SlotStart, slots)
    ensures forall t :: HasStart(slots, t) <==> Offered(r, t)
    ensures forall s :: s in slots ==> SlotOf(r, s)
  {
    NoonParses();
    var noon := ZonedTimeToUtc(r.day, "12:00", r.offset).value;
    var weekday := LocalWeekday(noon, r.offset);
    if |r.businessHours| == 0 { return []; }
    var branchWindows := r.businessHours;
    if |r.branchHours| > 0 {
      branchWindows := IntersectRanges(r.businessHours, r.branchHours);
    }
    if |branchWindows| == 0 { assert OpeningHours(r) == {}; return []; }
    var shifts := ShiftsOn(r, weekday);
    if |shifts| == 0 { assert Shifts(r) == {}; return []; }
    var windows := IntersectRanges(branchWindows, shifts);
    var candidates := SlotsInWindows(r, windows);
    var kept := DedupeByStart(candidates);
    slots := SortBy(SlotStart, kept);
    SortDistinct(SlotStart, kept);
    SortKeepsStarts(kept);
    forall t ensures HasStart(slots, t) <==> Offered(r, t) {
      StartsExact(r, candidates, t);
      if HasStart(candidates, t) { var s :| s in kept && s.startsAt == t; assert s in slots; }
      if HasStart(slots, t) { var s :| s in slots && s.startsAt == t; assert s in candidates; }
    }
  }

  /**
   * The slot list is exact: strictly increasing, without duplicates, one slot for every start
   * that should be offered and for no other, each carrying its own block and label. The shifts are
   * those of the calendar's weekday at local noon.
   */
  method ComputeAvailability(r: Request) returns (slots: seq<Slot>)
    requires ValidRequest(r)
    ensures StrictlySortedBy(SlotStart, slots)
    ensures forall t :: HasStart(slots, t) <==> Offered(r, t)
    ensures forall s :: s in slots ==> SlotOf(r, s)
    ensures forall t :: HasStart(slots, t) <==>
      OfferedOn(r, CivilWeekday(LocalDay(WallToUtc(r.day * 86_400_000 + 720 * 60_000, r.offset), r.offset)), t)
    ensures forall s :: s in slots ==> BlockAround(r, s)
  {
    slots := GenerateSlots(r);
    SlotsOnWeekday(r, slots, CivilWeekday(LocalDay(StartOf(r, 720), r.offset)));
    SlotsAround(r, slots);
  }

  lemma SlotsOnWeekday(r: Request, slots: seq<Slot>, weekday: nat)
    requires ValidRequest(r) && weekday == CivilWeekday(LocalDay(StartOf(r, 720), r.offset))
    requires forall t :: HasStart(slots, t) <==> Offered(r, t)
    ensures forall t :: HasStart(slots, t) <==> OfferedOn(r, weekday, t)
  {
    forall t ensures HasStart(slots, t) <==> OfferedOn(r, weekday, t) { OfferedExactly(r, t); }
  }

  lemma SlotsAround(r: Request, slots: seq<Slot>)
    requires ValidRequest(r) && forall s :: s in slots ==> SlotOf(r, s)
    ensures forall s :: s in slots ==> BlockAround(r, s)
  {
    forall s | s in slots ensures BlockAround(r, s) { SlotIsAround(r, s); }
  }

  lemma SlotIsAround(r: Request, s: Slot)
    requires ValidRequest(r) && SlotOf(r, s)
    ensures BlockAround(r, s)
  {
  }

  lemma SortKeepsStarts(kept: seq<Slot>)
    ensures forall s :: s in SortBy(SlotStart, kept) <==> s in kept
  {
    forall s ensures s in SortBy(SlotStart, kept) <==> s in kept { SortKeepsElements(SlotStart, kept, s); }
  }

  /** Sound and complete candidates have exactly the starts that should be offered. */
  lemma StartsExact(r: Request, candidates: seq<Slot>, t: int)
    requires ValidRequest(r) && Sound(r, candidates)
    requires forall w :: w in WorkingWindows(r) ==> AllDone(r, w, candidates)
    ensures HasStart(candidates, t) <==> Offered(r, t)
  {
    if HasStart(candidates, t) {
      var s :| s in candidates && s.startsAt == t;
      assert SlotOf(r, s);
      var w, n :| OfferedAt(r, w, n) && s == SlotAt(r, GridMinute(w, r.step, n));
      assert t == StartOf(r, GridMinute(w, r.step, n));
    }
    if Offered(r, t) {
      var w, n: nat :| OfferedAt(r, w, n) && t == StartOf(r, GridMinute(w, r.step, n));
      assert w in WorkingWindows(r);
      assert Done(r, w, n + 1, candidates);
    }
  }

  ghost predicate WindowsDone(r: Request, windows: seq<TimeRange>, i: nat, slots: seq<Slot>)
    requires ValidRequest(r) && ValidRanges(windows) && i <= |windows|
  {
    forall k :: 0 <= k < i ==> AllDone(r, ToSpan(windows[k]), slots)
  }

  method SlotsInWindows(r: Request, windows: seq<TimeRange>) returns (slots: seq<Slot>)
    requires ValidRequest(r) && ValidRanges(windows)
    requires Spans(windows) == WorkingWindows(r)
    ensures Sound(r, slots)
    ensures forall w :: w in WorkingWindows(r) ==> AllDone(r, w, slots)
  {
    slots := [];
    for i := 0 to |windows|
      invariant Sound(r, slots)
      invariant WindowsDone(r, windows, i, slots)
    {
      ghost var before := slots;
      SpanAt(windows, i);
      slots := WindowSlots(r, windows[i], slots);
      WindowsDoneStep(r, windows, i, before, slots);
    }
    WindowsCover(r, windows, slots);
  }

  lemma SpanAt(windows: seq<TimeRange>, i: nat)
    requires ValidRanges(windows) && i < |windows|
    ensures ToSpan(windows[i]) in Spans(windows)
  {
    assert windows[i] in windows;
  }

  lemma WindowsDoneStep(r: Request, windows: seq<TimeRange>, i: nat, small: seq<Slot>, large: seq<Slot>)
    requires ValidRequest(r) && ValidRanges(windows) && i < |windows|
    requires WindowsDone(r, windows, i, small) && AllDone(r, ToSpan(windows[i]), large)
    requires forall s :: s in small ==> s in large
    ensures WindowsDone(r, windows, i + 1, large)
  {
    forall k | 0 <= k < i ensures AllDone(r, ToSpan(windows[k]), large) {
      AllDoneGrows(r, ToSpan(windows[k]), small, large);
    }
  }

  lemma WindowsCover(r: Request, windows: seq<TimeRange>, slots: seq<Slot>)
    requires ValidRequest(r) && ValidRanges(windows)
    requires WindowsDone(r, windows, |windows|, slots)
    ensures forall w :: w in Spans(windows) ==> AllDone(r, w, slots)
  {
    forall w | w in Spans(windows) ensures AllDone(r, w, slots) {
      var x :| x in windows && ToSpan(x) == w;
      var k :| 0 <= k < |windows| && windows[k] == x;
    }
  }

  method ShiftsOn(r: Request, weekday: nat) returns (shifts: seq<TimeRange>)
    requires ValidRequest(r) && weekday == NoonWeekday(r)
    ensures ValidRanges(shifts) && Spans(shifts) == Shifts(r)
  {
    shifts := [];
    for i := 0 to |r.schedule|
      invariant ValidRanges(shifts)
      invariant Spans(shifts) == ShiftsAmong(r.schedule[..i], weekday)
    {
      var w := r.schedule[i];
      assert r.schedule[..i + 1] == r.schedule[..i] + [w];
      if w.weekday == weekday {
        SpansAppend(shifts, TimeRange(w.startTime, w.endTime));
        shifts := shifts + [TimeRange(w.startTime, w.endTime)];
      }
      ShiftsAppend(r.schedule[..i], w, weekday);
    }
    assert r.schedule[..|r.schedule|] == r.schedule;
  }

  lemma ShiftsAppend(schedule: seq<ScheduleWindow>, w: ScheduleWindow, weekday: nat)
    requires forall x :: x in schedule + [w] ==> IsTimeOfDay(x.startTime) && IsTimeOfDay(x.endTime)
    ensures ShiftsAmong(schedule + [w], weekday) ==
      ShiftsAmong(schedule, weekday) + if w.weekday == weekday then {ShiftSpan(w)} else {}
  {
  }
}
