/** The proleptic Gregorian calendar behind JavaScript's `Date.UTC` and its UTC getters, in whole days since 1970. */
module Calendar {
  import opened Arithmetic

  /** Months count from 0, as JavaScript's do; days from 1. */
  datatype Date = Date(year: int, month: int, day: int)

  predicate Leap(year: int) {
    year % 4 == 0 && (year % 100 != 0 || year % 400 == 0)
  }

  function DaysIn(year: int, month: int): int {
    if month == 1 then (if Leap(year) then 29 else 28)
    else if month in {3, 5, 8, 10} then 30
    else 31
  }

  predicate Valid(d: Date) {
    0 <= d.month < 12 && 1 <= d.day <= DaysIn(d.year, d.month)
  }

  function DaysBefore(year: int, month: nat): int {
    if month == 0 then 0 else DaysBefore(year, month - 1) + DaysIn(year, month - 1)
  }

  function YearLength(year: int): int { if Leap(year) then 366 else 365 }

  /** The day a year starts on, counted year by year from 1970. */
  function YearStart(year: int): int
    decreases if year < 1970 then 1970 - year else year - 1970
  {
    if year == 1970 then 0
    else if year > 1970 then YearStart(year - 1) + YearLength(year - 1)
    else YearStart(year + 1) - YearLength(year)
  }

  function DayNumber(d: Date): int
    requires 0 <= d.month
  {
    YearStart(d.year) + DaysBefore(d.year, d.month) + d.day - 1
  }

  lemma YearStep(year: int)
    ensures YearStart(year + 1) == YearStart(year) + YearLength(year)
  {
  }

  lemma YearHasItsMonths(year: int)
    ensures DaysBefore(year, 12) == YearLength(year)
  {
    var leap := if Leap(year) then 1 else 0;
    assert DaysBefore(year, 1) == 31;
    assert DaysBefore(year, 2) == 59 + leap;
    assert DaysBefore(year, 4) == 120 + leap;
    assert DaysBefore(year, 6) == 181 + leap;
    assert DaysBefore(year, 8) == 243 + leap;
    assert DaysBefore(year, 10) == 304 + leap;
  }

  lemma {:induction false} MonthsInOrder(year: int, a: nat, b: nat)
    requires a < b
    ensures DaysBefore(year, a) + DaysIn(year, a) <= DaysBefore(year, b)
  {
    if a < b - 1 { MonthsInOrder(year, a, b - 1); }
  }

  lemma {:induction false} YearsInOrder(a: int, b: int)
    requires a < b
    ensures YearStart(a + 1) <= YearStart(b)
    decreases b - a
  {
    if a < b - 1 {
      YearsInOrder(a, b - 1);
      YearStep(b - 1);
    }
  }

  lemma WithinItsYear(d: Date)
    requires Valid(d)
    ensures YearStart(d.year) <= DayNumber(d) < YearStart(d.year + 1)
  {
    YearStep(d.year);
    YearHasItsMonths(d.year);
    MonthsInOrder(d.year, d.month, 12);
    if d.month > 0 { MonthsInOrder(d.year, 0, d.month); }
  }

  /** Two dates with one day number are one date. */
  lemma DayNumberInjective(a: Date, b: Date)
    requires Valid(a) && Valid(b) && DayNumber(a) == DayNumber(b)
    ensures a == b
  {
    WithinItsYear(a);
    WithinItsYear(b);
    if a.year < b.year {
      YearsInOrder(a.year, b.year);
    } else if b.year < a.year {
      YearsInOrder(b.year, a.year);
    } else if a.month < b.month {
      MonthsInOrder(a.year, a.month, b.month);
    } else if b.month < a.month {
      MonthsInOrder(a.year, b.month, a.month);
    }
  }

  function NextDay(d: Date): Date {
    if d.day < DaysIn(d.year, d.month) then d.(day := d.day + 1)
    else if d.month < 11 then Date(d.year, d.month + 1, 1)
    else Date(d.year + 1, 0, 1)
  }

  function DayBefore(d: Date): Date {
    if d.day > 1 then d.(day := d.day - 1)
    else if d.month > 0 then Date(d.year, d.month - 1, DaysIn(d.year, d.month - 1))
    else Date(d.year - 1, 11, 31)
  }

  lemma NextDayIsNext(d: Date)
    requires Valid(d)
    ensures Valid(NextDay(d)) && DayNumber(NextDay(d)) == DayNumber(d) + 1
  {
    if d.day == DaysIn(d.year, d.month) {
      MonthStep(d.year, d.month);
      if d.month == 11 {
        YearStep(d.year);
        YearHasItsMonths(d.year);
      }
    }
  }

  lemma MonthStep(year: int, month: nat)
    ensures DaysBefore(year, month + 1) == DaysBefore(year, month) + DaysIn(year, month)
    ensures DaysBefore(year, 0) == 0
  {
  }

  lemma DayBeforeIsBefore(d: Date)
    requires Valid(d)
    ensures Valid(DayBefore(d)) && DayNumber(DayBefore(d)) == DayNumber(d) - 1
  {
    if d.day == 1 {
      if d.month > 0 {
        MonthStep(d.year, d.month - 1);
      } else {
        YearStep(d.year - 1);
        YearHasItsMonths(d.year - 1);
        MonthStep(d.year - 1, 11);
      }
    }
  }

  method FromDayNumber(n: int) returns (d: Date)
    ensures d == Civil(n)
  {
    d := Date(1970, 0, 1);
    var i := 0;
    while i < n
      invariant Valid(d) && DayNumber(d) == i && (i <= n || i == 0)
    {
      NextDayIsNext(d);
      d, i := NextDay(d), i + 1;
    }
    while i > n
      invariant Valid(d) && DayNumber(d) == i && i >= n
    {
      DayBeforeIsBefore(d);
      d, i := DayBefore(d), i - 1;
    }
    CivilOf(d);
  }

  lemma {:induction false} EveryDayHasADate(n: int) returns (d: Date)
    ensures Valid(d) && DayNumber(d) == n
    decreases if n < 0 then -n else n
  {
    if n == 0 {
      d := Date(1970, 0, 1);
    } else if n > 0 {
      d := EveryDayHasADate(n - 1);
      NextDayIsNext(d);
      d := NextDay(d);
    } else {
      d := EveryDayHasADate(n + 1);
      DayBeforeIsBefore(d);
      d := DayBefore(d);
    }
  }

  ghost predicate FallsOn(n: int, d: Date) { Valid(d) && DayNumber(d) == n }

  lemma SomeDate(n: int)
    ensures exists d :: FallsOn(n, d)
  {
    var d := EveryDayHasADate(n);
    assert FallsOn(n, d);
  }

  /** The date a day number falls on; there is exactly one. */
  ghost function Civil(n: int): (d: Date)
    ensures FallsOn(n, d)
  {
    SomeDate(n);
    var d :| FallsOn(n, d);
    d
  }

  lemma CivilOf(d: Date)
    requires Valid(d)
    ensures Civil(DayNumber(d)) == d
  {
    DayNumberInjective(Civil(DayNumber(d)), d);
  }

  lemma CivilIsInjective(a: int, b: int)
    requires Civil(a) == Civil(b)
    ensures a == b
  {
  }

  lemma LaterYearsAreLater(a: int, b: int)
    requires Civil(a).year < Civil(b).year
    ensures a < b
  {
    WithinItsYear(Civil(a));
    WithinItsYear(Civil(b));
    YearsInOrder(Civil(a).year, Civil(b).year);
  }

  /** The day `Date.UTC` names; a day past the month's end rolls over, and years 0 to 99 mean 1900 to 1999. */
  function DateUtc(year: int, month: nat, day: int): int {
    var full := if 0 <= year <= 99 then 1900 + year else year;
    YearStart(full) + DaysBefore(full, month) + day - 1
  }

  /** Asking for a day the month does not have lands in the next month; any other day lands on itself. */
  lemma RollsOver(year: int, month: nat, day: int)
    requires year > 99 && month < 12 && 1 <= day <= 31
    ensures var d := Civil(DateUtc(year, month, day));
      if day <= DaysIn(year, month) then d == Date(year, month, day) else d.month == month + 1
  {
    var n := DateUtc(year, month, day);
    if day <= DaysIn(year, month) {
      CivilOf(Date(year, month, day));
    } else {
      var rolled := Date(year, month + 1, day - DaysIn(year, month));
      assert DaysBefore(year, month + 1) == DaysBefore(year, month) + DaysIn(year, month);
      CivilOf(rolled);
    }
  }

  // ── weekdays ──

  /**
   * The day of the week as a congruence in year, month and day, 0 for Sunday: leap days are
   * counted through the year the date belongs to, which January and February begin one early.
   */
  function DayOfWeek(d: Date): nat
    requires 0 <= d.month < 12
  {
    var year := if d.month < 2 then d.year - 1 else d.year;
    (year + year / 4 - year / 100 + year / 400 + MonthTerm(d.month) + d.day) % 7
  }

  function MonthTerm(month: nat): nat
    requires month < 12
  {
    [0, 3, 2, 5, 0, 3, 5, 1, 4, 6, 2, 4][month]
  }

  /** Leap years up to and including this one, up to a constant. */
  function LeapsTo(year: int): int { year / 4 - year / 100 + year / 400 }

  lemma Quotient(n: int, k: int, q: int, r: int)
    requires k > 0 && n == q * k + r && 0 <= r < k
    ensures n / k == q && n % k == r
  {
    var q' := n / k;
    assert (q' - q) * k == r - n % k;
    assert q' == q by {
      if q' > q { MulMono(k, 1, q' - q); } else if q' < q { MulMono(k, 1, q - q'); }
    }
  }

  lemma DivStep(n: int, k: int)
    requires k > 0
    ensures n / k == (n - 1) / k + if n % k == 0 then 1 else 0
  {
    var q, r := (n - 1) / k, (n - 1) % k;
    if r == k - 1 {
      assert n == (q + 1) * k;
      Quotient(n, k, q + 1, 0);
    } else {
      Quotient(n, k, q, r + 1);
    }
  }

  lemma LeapStep(year: int)
    ensures LeapsTo(year) == LeapsTo(year - 1) + if Leap(year) then 1 else 0
  {
    DivStep(year, 4);
    DivStep(year, 100);
    DivStep(year, 400);
    if year % 400 == 0 { Quotient(year, 100, 4 * (year / 400), 0); }
    if year % 100 == 0 { Quotient(year, 4, 25 * (year / 100), 0); }
  }

  lemma {:induction false} YearStartCounts(year: int)
    ensures YearStart(year) == 365 * (year - 1970) + LeapsTo(year - 1) - 477
    decreases if year < 1970 then 1970 - year else year - 1970
  {
    if year > 1970 {
      YearStartCounts(year - 1);
      LeapStep(year - 1);
    } else if year < 1970 {
      YearStartCounts(year + 1);
      LeapStep(year);
    }
  }

  lemma DaysBeforeTable(year: int, month: nat)
    requires month < 12
    ensures DaysBefore(year, month) == [0, 31, 59, 90, 120, 151, 181, 212, 243, 273, 304, 334][month]
      + if month >= 2 && Leap(year) then 1 else 0
  {
    var leap := if Leap(year) then 1 else 0;
    assert DaysBefore(year, 1) == 31 && DaysBefore(year, 2) == 59 + leap;
    assert DaysBefore(year, 3) == 90 + leap && DaysBefore(year, 4) == 120 + leap;
    assert DaysBefore(year, 5) == 151 + leap && DaysBefore(year, 6) == 181 + leap;
    assert DaysBefore(year, 7) == 212 + leap && DaysBefore(year, 8) == 243 + leap;
    assert DaysBefore(year, 9) == 273 + leap && DaysBefore(year, 10) == 304 + leap;
    assert DaysBefore(year, 11) == 334 + leap;
  }

  lemma SameWeekday(a: int, b: int, q: int)
    requires a - b == 7 * q
    ensures a % 7 == b % 7
  {
  }

  /** Counting days from Thursday, 1 January 1970, gives every date its day of the week. */
  lemma WeekdayCounts(d: Date)
    requires Valid(d)
    ensures (DayNumber(d) + 4) % 7 == DayOfWeek(d)
  {
    YearStartCounts(d.year);
    LeapStep(d.year);
    DaysBeforeTable(d.year, d.month);
    var year := if d.month < 2 then d.year - 1 else d.year;
    var sum := year + LeapsTo(year) + MonthTerm(d.month) + d.day;
    var before := [0, 31, 59, 90, 120, 151, 181, 212, 243, 273, 304, 334][d.month] - MonthTerm(d.month);
    assert DayNumber(d) + 4 - sum == 364 * d.year + (d.year - year) - 719524 + before;
    var k := MonthQuotient(d.month);
    SameWeekday(DayNumber(d) + 4, sum, 52 * d.year - 102789 + k);
  }

  lemma MonthQuotient(month: nat) returns (k: int)
    requires month < 12
    ensures [0, 31, 59, 90, 120, 151, 181, 212, 243, 273, 304, 334][month] - MonthTerm(month)
      + (if month < 2 then 1 else 0) - 1 == 7 * k
  {
    k := [0, 4, 8, 12, 17, 21, 25, 30, 34, 38, 43, 47][month];
  }
}
