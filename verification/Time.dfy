/**
 * packages/shared/src/time.ts.
 *
 * An instant is a number of milliseconds since the epoch; a calendar date is the number of
 * days since the epoch; a time zone is a function from instants to minutes east of UTC.
 */
module Time {
  import opened Digits
  import opened Wrappers

  const MINUTE := 60_000
  const DAY := 86_400_000

  type Offset = int -> int

  datatype TimeRange = TimeRange(start: string, end: string)

  // ── times of day ──

  function MinutesFromTimeOfDay(value: string): Option<nat> {
    MinutesOf(Split(value, ':'))
  }

  function MinutesOf(parts: seq<string>): Option<nat>
    requires |parts| >= 1
  {
    var h := ParseDigits(parts[0]);
    var m := if |parts| > 1 then ParseDigits(parts[1]) else Some(0);
    if h.None? || m.None? || h.value > 24 || m.value > 59 then None
    else Some(h.value * 60 + m.value)
  }

  lemma PairRead(parts: seq<string>, hours: nat, minutes: nat)
    requires |parts| == 2 && ParseDigits(parts[0]) == Some(hours) && ParseDigits(parts[1]) == Some(minutes)
    ensures MinutesOf(parts) == if hours <= 24 && minutes <= 59 then Some(hours * 60 + minutes) else None
  {
  }

  /** Hours and minutes of any number of digits are read up to 24 and 59, so 24:00 and 24:59 too. */
  lemma MinutesRead(value: string, h: string, m: string, hours: nat, minutes: nat)
    requires value == h + [':'] + m && ParseDigits(h) == Some(hours) && ParseDigits(m) == Some(minutes)
    ensures MinutesFromTimeOfDay(value) == if hours <= 24 && minutes <= 59 then Some(hours * 60 + minutes) else None
  {
    ParsesIffDigits(h);
    ParsesIffDigits(m);
    NoColon(h);
    NoColon(m);
    SplitOnce(h, ':', m);
    PairRead(Split(value, ':'), hours, minutes);
  }

  lemma NoColon(s: string)
    requires AllDigits(s)
    ensures ':' !in s
  {
  }

  /** Hours alone stand for the full hour. */
  lemma HoursRead(h: string, hours: nat)
    requires ParseDigits(h) == Some(hours)
    ensures MinutesFromTimeOfDay(h) == if hours <= 24 then Some(hours * 60) else None
  {
    ParsesIffDigits(h);
    NoColon(h);
    SplitWithout(h, ':');
    AloneRead(Split(h, ':'), hours);
  }

  lemma AloneRead(parts: seq<string>, hours: nat)
    requires |parts| == 1 && ParseDigits(parts[0]) == Some(hours)
    ensures MinutesOf(parts) == if hours <= 24 then Some(hours * 60) else None
  {
  }

  /** JavaScript's remainder truncates toward zero. */
  function JsRemainder(a: int, b: int): int
    requires b > 0
  {
    if a >= 0 then a % b else -((-a) % b)
  }

  function PadTwo(n: nat): string
    requires n < 100
  {
    [DigitChar(n / 10), DigitChar(n % 10)]
  }

  lemma WrapIsEuclidean(minutes: int)
    ensures JsRemainder(JsRemainder(minutes, 1440) + 1440, 1440) == minutes % 1440
  {
    if minutes < 0 {
      var q, r := (-minutes) / 1440, (-minutes) % 1440;
      assert minutes == 1440 * (-q) - r;
      assert minutes % 1440 == (-r) % 1440;
    }
  }

  function Clock(m: nat): string
    requires m < 1440
  {
    PadTwo(m / 60) + ":" + PadTwo(m % 60)
  }

  function TimeOfDayFromMinutes(minutes: int): string {
    WrapIsEuclidean(minutes);
    Clock(JsRemainder(JsRemainder(minutes, 1440) + 1440, 1440))
  }

  /** The strings the API accepts: HH:mm from 00:00 to 23:59. */
  predicate IsTimeOfDay(s: string) {
    && |s| == 5
    && IsDigit(s[0]) && IsDigit(s[1]) && s[2] == ':' && IsDigit(s[3]) && IsDigit(s[4])
    && 10 * DigitOf(s[0]) + DigitOf(s[1]) < 24
    && DigitOf(s[3]) < 6
  }

  lemma SplitPair(a: char, b: char, c: char, d: char)
    requires IsDigit(a) && IsDigit(b) && IsDigit(c) && IsDigit(d)
    ensures Split([a, b, ':', c, d], ':') == [[a, b], [c, d]]
  {
    SplitWithout([c, d], ':');
    assert [':', c, d][1..] == [c, d];
    assert Split([':', c, d], ':') == [[], [c, d]];
    assert [b, ':', c, d][1..] == [':', c, d];
    assert [b] + [] == [b] && [[], [c, d]][1..] == [[c, d]];
    assert Split([b, ':', c, d], ':') == [[b], [c, d]];
    assert [a, b, ':', c, d][1..] == [b, ':', c, d];
    assert [[b], [c, d]][1..] == [[c, d]];
    assert [a] + [b] == [a, b];
  }

  /** Minutes since midnight of an accepted time of day. */
  function Minutes(s: string): (m: nat)
    requires IsTimeOfDay(s)
    ensures m < 1440
  {
    60 * (10 * DigitOf(s[0]) + DigitOf(s[1])) + 10 * DigitOf(s[3]) + DigitOf(s[4])
  }

  /** The parser reads every accepted time of day. */
  lemma MinutesParses(s: string)
    requires IsTimeOfDay(s)
    ensures MinutesFromTimeOfDay(s) == Some(Minutes(s))
  {
    SplitPair(s[0], s[1], s[3], s[4]);
    assert s == [s[0], s[1], ':', s[3], s[4]];
    ParseTwo(s[0], s[1]);
    ParseTwo(s[3], s[4]);
  }

  lemma ClockMinutes(m: nat)
    requires m < 1440
    ensures IsTimeOfDay(Clock(m)) && Minutes(Clock(m)) == m
  {
    var h, k := m / 60, m % 60;
    var s := Clock(m);
    assert s == [DigitChar(h / 10), DigitChar(h % 10), ':', DigitChar(k / 10), DigitChar(k % 10)];
  }

  lemma FormatsClock(minutes: int)
    ensures TimeOfDayFromMinutes(minutes) == Clock(minutes % 1440)
  {
    WrapIsEuclidean(minutes);
  }

  /** A formatted time of day is an accepted one, denoting the minutes reduced modulo a day. */
  lemma TimeOfDayFormats(minutes: int)
    ensures IsTimeOfDay(TimeOfDayFromMinutes(minutes))
    ensures Minutes(TimeOfDayFromMinutes(minutes)) == minutes % 1440
  {
    FormatsClock(minutes);
    ClockMinutes(minutes % 1440);
  }

  /** Formatting wraps at midnight, so the round trip holds exactly below 24:00. */
  lemma TimeOfDayRoundTrip(minutes: int)
    ensures MinutesFromTimeOfDay(TimeOfDayFromMinutes(minutes)) == Some(minutes) <==> 0 <= minutes < 1440
  {
    TimeOfDayFormats(minutes);
    ReadBack(TimeOfDayFromMinutes(minutes), minutes);
  }

  lemma ReadBack(text: string, minutes: int)
    requires IsTimeOfDay(text) && Minutes(text) == minutes % 1440
    ensures MinutesFromTimeOfDay(text) == Some(minutes) <==> 0 <= minutes < 1440
  {
    MinutesParses(text);
  }

  // ── zones ──

  function Reading(instant: int, off: Offset): int {
    instant + off(instant) * MINUTE
  }

  function LocalDay(instant: int, off: Offset): int {
    Reading(instant, off) / DAY
  }

  function WeekdayOf(day: int): nat {
    (day + 4) % 7
  }

  function LocalWeekday(instant: int, off: Offset): nat {
    WeekdayOf(LocalDay(instant, off))
  }

  /** The wall-clock reading `minutes` past midnight of `day`. */
  function Wall(day: int, minutes: int): int {
    day * DAY + minutes * MINUTE
  }

  function WallToUtc(wall: int, off: Offset): int {
    var firstGuess := wall - off(wall) * MINUTE;
    wall - off(firstGuess) * MINUTE
  }

  function ZonedTimeToUtc(day: int, time: string, off: Offset): Option<int> {
    match MinutesFromTimeOfDay(time)
    case None => None
    case Some(minutes) => Some(WallToUtc(Wall(day, minutes), off))
  }

  /** Around `wall`, `off` is `before` until the instant `at` and `after` from then on. */
  ghost predicate OneTransitionNear(off: Offset, wall: int, before: int, after: int, at: int) {
    && -1440 <= before <= 1440 && -1440 <= after <= 1440
    && forall t :: wall - DAY <= t <= wall + DAY ==> off(t) == if t < at then before else after
  }

  ghost predicate WallTimeExists(off: Offset, wall: int) {
    exists t :: wall - DAY <= t <= wall + DAY && Reading(t, off) == wall
  }

  /**
   * Two passes are enough: near at most one transition, of any size and sign, the
   * conversion reads back as the wall time it was given exactly when that wall time exists.
   */
  lemma TwoPassesSuffice(wall: int, off: Offset, before: int, after: int, at: int)
    requires OneTransitionNear(off, wall, before, after, at)
    ensures Reading(WallToUtc(wall, off), off) == wall <==> WallTimeExists(off, wall)
  {
    var first := wall - off(wall) * MINUTE;
    var settled := WallToUtc(wall, off);
    assert wall - DAY <= first <= wall + DAY;
    assert wall - DAY <= settled <= wall + DAY;
    assert Reading(wall - before * MINUTE, off) == wall <==> wall - before * MINUTE < at || before == after;
    assert Reading(wall - after * MINUTE, off) == wall <==> wall - after * MINUTE >= at || before == after;
    if WallTimeExists(off, wall) {
      var t :| wall - DAY <= t <= wall + DAY && Reading(t, off) == wall;
      assert t == wall - before * MINUTE || t == wall - after * MINUTE;
    }
  }

  /**
   * Where the clock goes back every wall time in the repeated stretch has two instants.
   * The conversion picks the earlier one when the wall time, read as UTC, is before the
   * transition and the later one otherwise.
   */
  lemma RepeatedWallTime(wall: int, off: Offset, before: int, after: int, at: int)
    requires OneTransitionNear(off, wall, before, after, at)
    requires wall - before * MINUTE < at <= wall - after * MINUTE
    ensures WallToUtc(wall, off) == if wall < at then wall - before * MINUTE else wall - after * MINUTE
  {
    assert off(wall) == if wall < at then before else after;
  }

  /** A single pass is not enough: an hour is gained and the first guess lands on the wrong side. */
  lemma OnePassIsNotEnough()
    ensures exists off: Offset, wall, at ::
      && OneTransitionNear(off, wall, 60, 120, at)
      && Reading(wall - off(wall) * MINUTE, off) != wall
      && Reading(WallToUtc(wall, off), off) == wall
  {
    var off: Offset := t => if t < 0 then 60 else 120;
    var wall := 90 * MINUTE - MINUTE * 30 - MINUTE;
    assert OneTransitionNear(off, wall, 60, 120, 0);
    assert Reading(wall - off(wall) * MINUTE, off) != wall;
    assert Reading(WallToUtc(wall, off), off) == wall;
  }

  function Fixed(minutes: int): Offset { _ => minutes }

  lemma FixedOffsetDay(day: int, minute: int, offset: int)
    requires 0 <= minute < 1440
    ensures WallToUtc(Wall(day, minute), Fixed(offset)) == Wall(day, minute) - offset * MINUTE
    ensures LocalDay(WallToUtc(Wall(day, minute), Fixed(offset)), Fixed(offset)) == day
  {
  }

  /** Half-open overlap. */
  predicate RangesOverlap(aStart: int, aEnd: int, bStart: int, bEnd: int) {
    aStart < bEnd && bStart < aEnd
  }
}
