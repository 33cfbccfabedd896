/** apps/api/src/modules/crm/segment-compiler.ts: stored customer filters compiled to database conditions. */
module Segments {
  import opened Calendar
  import Time
  import opened Wrappers

  datatype Field =
    | TotalSpent | OrderCount | BookingCount | LoyaltyBalance | Language | Source
    | LastActivityAt | CreatedAt | BirthDate | Tag | OtherField(name: string)

  datatype Op =
    | Eq | Neq | Gt | Gte | Lt | Lte | In | DaysAgoGt | DaysAgoLt | MonthDayEq | OtherOp(name: string)

  datatype Value = Text(text: string) | Number(number: real) | Truth(truth: bool) | List(items: seq<Value>)

  datatype Filter =
    | All(parts: seq<Filter>)
    | Any(parts: seq<Filter>)
    | Condition(field: Field, op: Op, value: Value)

  /** Instants are milliseconds since 1970, birth dates days since 1970. */
  datatype Customer = Customer(
    totalSpent: int, orderCount: int, bookingCount: int, loyaltyBalance: int,
    language: string, source: string,
    lastActivityAt: int, createdAt: int, birthDate: Option<int>, tags: set<string>)

  /**
   * JavaScript's `Number`, `new Date(String(…))` and `String`, None being NaN or an invalid date, and
   * the database's order of text.
   */
  datatype Coercions = Coercions(
    number: Value -> Option<real>, instant: Value -> Option<int>, text: Value -> string,
    precedes: (string, string) -> bool)

  // ── what a filter means ──

  predicate IsDate(field: Field) { field in {LastActivityAt, CreatedAt, BirthDate} }

  predicate IsScalar(field: Field) {
    field in {TotalSpent, OrderCount, BookingCount, LoyaltyBalance, Language, Source}
  }

  function InstantOf(c: Customer, field: Field): Option<int>
    requires IsDate(field)
  {
    match field
    case LastActivityAt => Some(c.lastActivityAt)
    case CreatedAt => Some(c.createdAt)
    case _ => (match c.birthDate case None => None case Some(day) => Some(day * Time.DAY))
  }

  function ScalarOf(c: Customer, field: Field): Value
    requires IsScalar(field)
  {
    match field
    case TotalSpent => Number(c.totalSpent as real)
    case OrderCount => Number(c.orderCount as real)
    case BookingCount => Number(c.bookingCount as real)
    case LoyaltyBalance => Number(c.loyaltyBalance as real)
    case Language => Text(c.language)
    case _ => Text(c.source)
  }

  datatype Cmp = Less | AtMost | More | AtLeast | Same | Different

  predicate Compares(a: real, cmp: Cmp, b: real) {
    match cmp
    case Less => a < b
    case AtMost => a <= b
    case More => a > b
    case AtLeast => a >= b
    case Same => a == b
    case Different => a != b
  }

  function CmpOf(op: Op): Option<Cmp> {
    match op
    case Eq => Some(Same)
    case Neq => Some(Different)
    case Gt => Some(More)
    case Gte => Some(AtLeast)
    case Lt => Some(Less)
    case Lte => Some(AtMost)
    case _ => None
  }

  predicate Whole(r: real) { r.Floor as real == r }

  predicate TextCompares(co: Coercions, a: string, cmp: Cmp, b: string) {
    match cmp
    case Less => co.precedes(a, b)
    case AtMost => a == b || co.precedes(a, b)
    case More => co.precedes(b, a)
    case AtLeast => a == b || co.precedes(b, a)
    case Same => a == b
    case Different => a != b
  }

  /**
   * Whole numbers compare by size and text in the database's order, save that the sources, an
   * enumeration, have none. A value of another type fits no comparison at all.
   */
  predicate ValueCompares(co: Coercions, field: Field, a: Value, cmp: Cmp, b: Value) {
    if a.Number? && b.Number? then Whole(b.number) && Compares(a.number, cmp, b.number)
    else if a.Text? && b.Text? then
      (field == Source ==> cmp in {Same, Different}) && TextCompares(co, a.text, cmp, b.text)
    else false
  }

  /** A day shares today's month and day, at most a hundred years back. */
  ghost predicate SharesDay(day: int, today: Date) {
    var d := Civil(day);
    d.month == today.month && d.day == today.day && today.year - 100 <= d.year <= today.year
  }

  /** An amount against a number, by the operator's own name; `None` is no number. */
  predicate AmountMeets(n: int, op: Op, number: Option<real>) {
    match op
    case Eq => number.Some? && n as real == number.value
    case Neq => number.Some? && n as real != number.value
    case Gt => number.Some? && n as real > number.value
    case Gte => number.Some? && n as real >= number.value
    case Lt => number.Some? && n as real < number.value
    case Lte => number.Some? && n as real <= number.value
    case _ => true
  }

  /** A count against a value, which must be a whole number, or one of a list. */
  predicate CountMeets(n: int, op: Op, value: Value) {
    if op == In then value.List? && Number(n as real) in value.items
    else if op in {Eq, Neq, Gt, Gte, Lt, Lte} then
      value.Number? && Whole(value.number) && AmountMeets(n, op, Some(value.number))
    else true
  }

  /** A name against a text, in the database's order where it has one, or one of a list. */
  predicate NameMeets(co: Coercions, name: string, ordered: bool, op: Op, value: Value) {
    match op
    case Eq => value == Text(name)
    case Neq => value.Text? && value.text != name
    case Gt => ordered && value.Text? && co.precedes(value.text, name)
    case Gte => ordered && value.Text? && (value.text == name || co.precedes(value.text, name))
    case Lt => ordered && value.Text? && co.precedes(name, value.text)
    case Lte => ordered && value.Text? && (value.text == name || co.precedes(name, value.text))
    case In => value.List? && Text(name) in value.items
    case _ => true
  }

  /** The moment of a date field; a birth date is the midnight it begins with. */
  function MomentOf(c: Customer, field: Field): Option<int> {
    if field == LastActivityAt then Some(c.lastActivityAt)
    else if field == CreatedAt then Some(c.createdAt)
    else match c.birthDate
      case None => None
      case Some(day) => Some(day * 86_400_000)
  }

  /** A moment against an age in days, today's month and day, or another moment. */
  ghost predicate MomentMeets(co: Coercions, now: int, at: Option<int>, op: Op, value: Value) {
    match op
    case DaysAgoGt => OlderThan(now, at, co.number(value))
    case DaysAgoLt => NotOlderThan(now, at, co.number(value))
    case MonthDayEq =>
      value == Text("today") ==> at.Some? && SharesDay(at.value / 86_400_000, Civil(now / 86_400_000))
    case Gt => Follows(at, co.instant(value))
    case Lt => Follows(co.instant(value), at)
    case _ => true
  }

  /**
   * A condition read directly. A customer has a tag or has it not; amounts are compared as given
   * and ages as elapsed time; "month and day today" is asked of the field that is named. A pair of
   * field and operator that means nothing is no constraint.
   */
  ghost predicate Meets(co: Coercions, now: int, c: Customer, field: Field, op: Op, value: Value) {
    match field
    case Tag =>
      (match op
       case Eq => co.text(value) in c.tags
       case Neq => co.text(value) !in c.tags
       case _ => true)
    case TotalSpent =>
      if op == In then value.List? && Number(c.totalSpent as real) in value.items
      else AmountMeets(c.totalSpent, op, co.number(value))
    case OrderCount => CountMeets(c.orderCount, op, value)
    case BookingCount => CountMeets(c.bookingCount, op, value)
    case LoyaltyBalance => CountMeets(c.loyaltyBalance, op, value)
    case Language => NameMeets(co, c.language, true, op, value)
    case Source => NameMeets(co, c.source, false, op, value)
    case OtherField(_) => true
    case _ => MomentMeets(co, now, MomentOf(c, field), op, value)
  }

  predicate OlderThan(now: int, at: Option<int>, days: Option<real>) {
    at.Some? && days.Some? && (now - at.value) as real > days.value * 86_400_000.0
  }

  predicate NotOlderThan(now: int, at: Option<int>, days: Option<real>) {
    at.Some? && days.Some? && (now - at.value) as real <= days.value * 86_400_000.0
  }

  predicate Follows(a: Option<int>, b: Option<int>) {
    a.Some? && b.Some? && a.value > b.value
  }

  ghost predicate Selects(co: Coercions, now: int, c: Customer, f: Filter)
    decreases f
  {
    match f
    case All(parts) => forall i :: 0 <= i < |parts| ==> Selects(co, now, c, parts[i])
    case Any(parts) => exists i :: 0 <= i < |parts| && Selects(co, now, c, parts[i])
    case Condition(field, op, value) => Meets(co, now, c, field, op, value)
  }

  // ── the compiled condition and what the database makes of it ──

  datatype Where =
    | And(parts: seq<Where>)
    | Or(parts: seq<Where>)
    | Anyone
    | Tagged(tag: string)
    | BornKnown
    | BornOn(day: int)
    | Instant(field: Field, cmp: Cmp, at: Option<int>)
    | Spent(cmp: Cmp, amount: int)
    | Scalar(field: Field, cmp: Cmp, value: Value)
    | OneOf(field: Field, value: Value)

  /** A null column satisfies no comparison. */
  predicate Holds(co: Coercions, w: Where, c: Customer)
    decreases w
  {
    match w
    case And(parts) => forall i :: 0 <= i < |parts| ==> Holds(co, parts[i], c)
    case Or(parts) => exists i :: 0 <= i < |parts| && Holds(co, parts[i], c)
    case Anyone => true
    case Tagged(tag) => tag in c.tags
    case BornKnown => c.birthDate.Some?
    case BornOn(day) => c.birthDate == Some(day)
    case Instant(field, cmp, at) =>
      IsDate(field) && at.Some? && InstantOf(c, field).Some?
      && Compares(InstantOf(c, field).value as real, cmp, at.value as real)
    case Spent(cmp, amount) => Compares(c.totalSpent as real, cmp, amount as real)
    case Scalar(field, cmp, value) => IsScalar(field) && ValueCompares(co, field, ScalarOf(c, field), cmp, value)
    case OneOf(field, value) => IsScalar(field) && value.List? && ScalarOf(c, field) in value.items
  }

  /** `Math.trunc`. */
  function Trunc(r: real): int {
    if r >= 0.0 || r.Floor as real == r then r.Floor else r.Floor + 1
  }

  function DaysAgo(now: int, days: Option<real>): Option<int> {
    match days
    case None => None
    case Some(d) => Some(Trunc(now as real - d * Time.DAY as real))
  }

  /** The candidate birth dates of `count` years from `first` on, a 29 February skipped where it rolls over. */
  ghost function BirthdaysFrom(first: int, count: nat, month: nat, day: int): seq<int> {
    if count == 0 then []
    else
      var date := DateUtc(first + count - 1, month, day);
      BirthdaysFrom(first, count - 1, month, day) + if Civil(date).month != month then [] else [date]
  }

  ghost function BirthdayRanges(today: Date): seq<Where>
    requires today.month >= 0
  {
    var days := BirthdaysFrom(today.year - 100, 101, today.month, today.day);
    seq(|days|, i requires 0 <= i < |days| => BornOn(days[i]))
  }

  /** None where `BigInt` throws: an amount that reads as no number, whatever the operator. */
  ghost function CompileCondition(co: Coercions, now: int, field: Field, op: Op, value: Value): Option<Where> {
    if field == Tag then Some(Tagged(co.text(value)))
    else if IsDate(field) then
      Some(match op
           case DaysAgoGt => Instant(field, Less, DaysAgo(now, co.number(value)))
           case DaysAgoLt => Instant(field, AtLeast, DaysAgo(now, co.number(value)))
           case MonthDayEq =>
             if value != Text("today") then BornKnown
             else And([BornKnown, And([BornKnown]), Or(BirthdayRanges(Civil(now / Time.DAY)))])
           case Gt => Instant(field, More, co.instant(value))
           case Lt => Instant(field, Less, co.instant(value))
           case _ => Anyone)
    else if !IsScalar(field) then Some(Anyone)
    else if field == TotalSpent then
      match co.number(value)
      case None => None
      case Some(amount) =>
        Some(if CmpOf(op).Some? then Spent(CmpOf(op).value, Trunc(amount))
             else if op == In then OneOf(field, value)
             else Anyone)
    else
      Some(if CmpOf(op).Some? then Scalar(field, CmpOf(op).value, value)
           else if op == In then OneOf(field, value)
           else Anyone)
  }

  ghost predicate Compiles(co: Coercions, now: int, f: Filter)
    decreases f
  {
    match f
    case Condition(field, op, value) => CompileCondition(co, now, field, op, value).Some?
    case _ => forall i :: 0 <= i < |f.parts| ==> Compiles(co, now, f.parts[i])
  }

  ghost function Compile(co: Coercions, now: int, f: Filter): Where
    requires Compiles(co, now, f)
    decreases f
  {
    match f
    case All(parts) => And(seq(|parts|, i requires 0 <= i < |parts| => Compile(co, now, parts[i])))
    case Any(parts) => Or(seq(|parts|, i requires 0 <= i < |parts| => Compile(co, now, parts[i])))
    case Condition(field, op, value) => CompileCondition(co, now, field, op, value).value
  }

  // ── truncation ──

  /** Cutting off the fraction of `r` keeps the comparison with every whole number. */
  predicate TruncationIsSafe(cmp: Cmp, r: real) {
    Whole(r) || (r > 0.0 && cmp in {More, AtMost}) || (r < 0.0 && cmp in {Less, AtLeast})
  }

  lemma TruncationSafe(x: int, cmp: Cmp, r: real)
    requires TruncationIsSafe(cmp, r)
    ensures SameAnswer(x, cmp, r)
  {
    var t := Trunc(r);
    if x <= t - 1 {
      assert x as real <= t as real - 1.0;
    } else if x >= t + 1 {
      assert x as real >= t as real + 1.0;
    }
  }

  lemma TruncationUnsafe(cmp: Cmp, r: real)
    requires !TruncationIsSafe(cmp, r)
    ensures !SameAnswer(Trunc(r), cmp, r)
  {
  }

  lemma TruncationExact(cmp: Cmp, r: real)
    ensures (forall x: int :: SameAnswer(x, cmp, r)) <==> TruncationIsSafe(cmp, r)
  {
    if TruncationIsSafe(cmp, r) {
      forall x: int ensures SameAnswer(x, cmp, r) { TruncationSafe(x, cmp, r); }
    } else {
      TruncationUnsafe(cmp, r);
    }
  }

  predicate SameAnswer(x: int, cmp: Cmp, r: real) {
    Compares(x as real, cmp, Trunc(r) as real) <==> Compares(x as real, cmp, r)
  }

  // ── birthdays ──

  ghost predicate BornThen(born: int, first: int, count: nat, month: nat, day: int) {
    var d := Civil(born);
    d.month == month && d.day == day && first <= d.year < first + count
  }

  /** One more year's date, which is kept unless it rolled over. */
  lemma OneMoreYear(date: int, first: int, count: nat, month: nat, day: int, born: int)
    requires day <= DaysIn(first + count, month) ==> Civil(date) == Date(first + count, month, day)
    requires day > DaysIn(first + count, month) ==> Civil(date).month == month + 1
    ensures BornThen(born, first, count + 1, month, day)
      <==> BornThen(born, first, count, month, day) || (born == date && Civil(date).month == month)
  {
    if Civil(born) == Civil(date) { CivilIsInjective(born, date); }
    assert Valid(Civil(born)) by { assert FallsOn(born, Civil(born)); }
  }

  lemma {:induction false} BirthdaysExact(first: int, count: nat, month: nat, day: int, born: int)
    requires first > 99 && month < 12 && 1 <= day <= 31
    ensures born in BirthdaysFrom(first, count, month, day) <==> BornThen(born, first, count, month, day)
  {
    if count > 0 {
      BirthdaysExact(first, count - 1, month, day, born);
      RollsOver(first + count - 1, month, day);
      OneMoreYear(DateUtc(first + count - 1, month, day), first, count - 1, month, day, born);
    }
  }

  ghost predicate Increasing(days: seq<int>) {
    forall i, j :: 0 <= i < j < |days| ==> days[i] < days[j]
  }

  lemma AppendLater(days: seq<int>, date: int, first: int, count: nat, month: nat, day: int)
    requires Increasing(days) && forall i :: 0 <= i < |days| ==> BornThen(days[i], first, count, month, day)
    requires Civil(date).year >= first + count
    ensures Increasing(days + [date])
  {
    forall i | 0 <= i < |days| ensures days[i] < date { LaterYearsAreLater(days[i], date); }
  }

  lemma {:induction false} BirthdaysIncrease(first: int, count: nat, month: nat, day: int)
    requires first > 99 && month < 12 && 1 <= day <= 31
    ensures Increasing(BirthdaysFrom(first, count, month, day))
  {
    if count > 0 {
      BirthdaysIncrease(first, count - 1, month, day);
      var before, date := BirthdaysFrom(first, count - 1, month, day), DateUtc(first + count - 1, month, day);
      RollsOver(first + count - 1, month, day);
      if Civil(date).month == month {
        forall i | 0 <= i < |before| ensures BornThen(before[i], first, count - 1, month, day) {
          BirthdaysExact(first, count - 1, month, day, before[i]);
        }
        AppendLater(before, date, first, count - 1, month, day);
      }
    }
  }

  /** The enumeration holds exactly for the birth dates of the last hundred years that share today's month and day. */
  lemma BirthdayRangesExact(co: Coercions, today: Date, c: Customer)
    requires Valid(today) && today.year > 199
    ensures Holds(co, Or(BirthdayRanges(today)), c) <==> c.birthDate.Some? && SharesDay(c.birthDate.value, today)
  {
    var days := BirthdaysFrom(today.year - 100, 101, today.month, today.day);
    var ranges := BirthdayRanges(today);
    assert Holds(co, Or(ranges), c) <==> c.birthDate.Some? && c.birthDate.value in days by {
      if c.birthDate.Some? && c.birthDate.value in days {
        var i :| 0 <= i < |days| && days[i] == c.birthDate.value;
        assert Holds(co, ranges[i], c);
      }
    }
    if c.birthDate.Some? {
      BirthdaysExact(today.year - 100, 101, today.month, today.day, c.birthDate.value);
    }
  }

  // ── compiling keeps the meaning ──

  /** The cutoff of an age falls on a whole millisecond, or where the fraction does not matter. */
  predicate CutoffIsSafe(field: Field, cmp: Cmp, cutoff: real) {
    TruncationIsSafe(cmp, cutoff) || (field == BirthDate && Trunc(cutoff) % Time.DAY != 0)
  }

  /**
   * What makes compiling a condition harmless: no fraction that matters is cut off, a tag is asked
   * for with `eq`, and the month and day are today's and asked of the birth date.
   */
  predicate Faithful(co: Coercions, now: int, field: Field, op: Op, value: Value) {
    if field == TotalSpent && CmpOf(op).Some? then
      co.number(value).Some? ==> TruncationIsSafe(CmpOf(op).value, co.number(value).value)
    else if IsDate(field) && op in {DaysAgoGt, DaysAgoLt} && co.number(value).Some? then
      CutoffIsSafe(
        field, if op == DaysAgoGt then Less else AtLeast, now as real - co.number(value).value * Time.DAY as real)
    else if IsDate(field) && op == MonthDayEq then field == BirthDate && value == Text("today")
    else if field == Tag then op == Eq
    else true
  }

  /** The compiled condition and the condition agree on this customer. */
  ghost predicate Agree(co: Coercions, now: int, field: Field, op: Op, value: Value, c: Customer)
    requires CompileCondition(co, now, field, op, value).Some?
  {
    Holds(co, CompileCondition(co, now, field, op, value).value, c) <==> Meets(co, now, c, field, op, value)
  }

  lemma AgeIsCutoff(now: int, at: int, days: real)
    ensures (now - at) as real > days * Time.DAY as real <==> at as real < now as real - days * Time.DAY as real
  {
  }

  lemma AgeAgrees(co: Coercions, now: int, field: Field, op: Op, value: Value, c: Customer)
    requires IsDate(field) && op in {DaysAgoGt, DaysAgoLt}
    requires co.number(value).Some? && InstantOf(c, field).Some?
    ensures Agree(co, now, field, op, value, c)
      <==> SameAnswer(InstantOf(c, field).value, if op == DaysAgoGt then Less else AtLeast,
                      now as real - co.number(value).value * Time.DAY as real)
  {
    AgeIsCutoff(now, InstantOf(c, field).value, co.number(value).value);
  }

  lemma MidnightsAgree(day: int, cmp: Cmp, cutoff: real)
    requires cmp in {Less, AtLeast} && Trunc(cutoff) % Time.DAY != 0
    ensures SameAnswer(day * Time.DAY, cmp, cutoff)
  {
    assert (day * Time.DAY) % Time.DAY == 0;
    var at, t := day * Time.DAY, Trunc(cutoff);
    if at <= t - 1 {
      assert at as real <= t as real - 1.0;
    } else {
      assert at >= t + 1 && at as real >= t as real + 1.0;
    }
  }

  lemma FaithfulAgeAgrees(co: Coercions, now: int, field: Field, op: Op, value: Value, c: Customer)
    requires IsDate(field) && op in {DaysAgoGt, DaysAgoLt} && Faithful(co, now, field, op, value)
    ensures Agree(co, now, field, op, value, c)
  {
    if co.number(value).Some? && InstantOf(c, field).Some? {
      var cmp := if op == DaysAgoGt then Less else AtLeast;
      var cutoff := now as real - co.number(value).value * Time.DAY as real;
      AgeAgrees(co, now, field, op, value, c);
      if TruncationIsSafe(cmp, cutoff) {
        TruncationSafe(InstantOf(c, field).value, cmp, cutoff);
      } else {
        MidnightsAgree(c.birthDate.value, cmp, cutoff);
      }
    }
  }

  lemma FaithfulAgrees(co: Coercions, now: int, field: Field, op: Op, value: Value, c: Customer)
    requires Civil(now / Time.DAY).year > 199
    requires CompileCondition(co, now, field, op, value).Some? && Faithful(co, now, field, op, value)
    ensures Agree(co, now, field, op, value, c)
  {
    if IsDate(field) && op in {DaysAgoGt, DaysAgoLt} {
      FaithfulAgeAgrees(co, now, field, op, value, c);
    } else if IsDate(field) && op == MonthDayEq {
      BirthdayAgrees(co, now, c);
    } else if field == TotalSpent && CmpOf(op).Some? {
      SpentAgrees(co, now, op, value, c);
    } else {
      RestAgrees(co, now, field, op, value, c);
    }
  }

  lemma SpentAgrees(co: Coercions, now: int, op: Op, value: Value, c: Customer)
    requires CmpOf(op).Some? && co.number(value).Some? && Faithful(co, now, TotalSpent, op, value)
    ensures Agree(co, now, TotalSpent, op, value, c)
  {
    TruncationSafe(c.totalSpent, CmpOf(op).value, co.number(value).value);
  }

  /** Where nothing is computed from the value, the compiled condition is the condition. */
  lemma RestAgrees(co: Coercions, now: int, field: Field, op: Op, value: Value, c: Customer)
    requires CompileCondition(co, now, field, op, value).Some?
    requires IsDate(field) ==> op !in {DaysAgoGt, DaysAgoLt, MonthDayEq}
    requires field == TotalSpent ==> CmpOf(op).None?
    requires field == Tag ==> op == Eq
    ensures Agree(co, now, field, op, value, c)
  {
    if IsDate(field) { InstantsAgree(co, now, field, op, value, c); }
  }

  lemma InstantsAgree(co: Coercions, now: int, field: Field, op: Op, value: Value, c: Customer)
    requires IsDate(field) && op !in {DaysAgoGt, DaysAgoLt, MonthDayEq}
    ensures Agree(co, now, field, op, value, c)
  {
  }

  lemma BirthdayAgrees(co: Coercions, now: int, c: Customer)
    requires Civil(now / Time.DAY).year > 199
    ensures Agree(co, now, BirthDate, MonthDayEq, Text("today"), c)
  {
    var ranges := Or(BirthdayRanges(Civil(now / Time.DAY)));
    BirthdayRangesExact(co, Civil(now / Time.DAY), c);
    MonthDayHolds(co, ranges, c);
    MidnightDay(c);
  }

  lemma MonthDayHolds(co: Coercions, ranges: Where, c: Customer)
    ensures Holds(co, And([BornKnown, And([BornKnown]), ranges]), c) <==> c.birthDate.Some? && Holds(co, ranges, c)
  {
    var w := And([BornKnown, And([BornKnown]), ranges]);
    assert Holds(co, w.parts[0], c) <==> c.birthDate.Some?;
    assert Holds(co, w.parts[1], c) <==> Holds(co, BornKnown, c) by {
      assert w.parts[1] == And([BornKnown]) && [BornKnown][0] == BornKnown;
    }
    assert w.parts[2] == ranges;
  }

  lemma MidnightDay(c: Customer)
    ensures c.birthDate.Some? ==> InstantOf(c, BirthDate).value / Time.DAY == c.birthDate.value
  {
  }

  /** A customer with one amount, both timestamps at one instant, and the birth date of its day. */
  function Someone(amount: int, at: int): Customer {
    Customer(amount, 0, 0, 0, "", "", at, at, Some(at / Time.DAY), {})
  }

  /** A customer without tags, without a birth date, and active and created at one instant. */
  function Stranger(at: int): Customer { Customer(0, 0, 0, 0, "", "", at, at, None, {}) }

  /**
   * Whatever the operator, a tag condition selects those who have the tag: "not tagged" selects
   * exactly the customers it should leave out, and an operator that means nothing is a constraint.
   */
  lemma TagOperatorIgnored(co: Coercions, now: int, op: Op, value: Value, c: Customer)
    ensures CompileCondition(co, now, Tag, op, value).Some?
    ensures Holds(co, CompileCondition(co, now, Tag, op, value).value, c) <==> co.text(value) in c.tags
    ensures op == Neq ==> !Agree(co, now, Tag, op, value, c)
    ensures op !in {Eq, Neq} ==> (Agree(co, now, Tag, op, value, c) <==> co.text(value) in c.tags)
  {
  }

  /**
   * Month and day are always read off the birth date, and only "today" is looked up: a customer
   * who was created today and has no birth date is left out, and any other value selects
   * everybody whose birth date is known.
   */
  lemma MonthDayReadsBirthDate(co: Coercions, now: int, field: Field, value: Value)
    requires IsDate(field) && !(field == BirthDate && value == Text("today"))
    ensures !Agree(co, now, field, MonthDayEq, value, Stranger(now))
    ensures value != Text("today") ==> forall c ::
      Holds(co, CompileCondition(co, now, field, MonthDayEq, value).value, c) <==> c.birthDate.Some?
  {
    if value == Text("today") {
      MonthDayHolds(co, Or(BirthdayRanges(Civil(now / Time.DAY))), Stranger(now));
    }
  }

  lemma AgeDisagrees(co: Coercions, now: int, field: Field, op: Op, value: Value) returns (c: Customer)
    requires IsDate(field) && op in {DaysAgoGt, DaysAgoLt} && !Faithful(co, now, field, op, value)
    ensures !Agree(co, now, field, op, value, c)
  {
    var cmp := if op == DaysAgoGt then Less else AtLeast;
    var cutoff := now as real - co.number(value).value * Time.DAY as real;
    c := Someone(0, Trunc(cutoff));
    TruncationUnsafe(cmp, cutoff);
    AgeAgrees(co, now, field, op, value, c);
  }

  lemma UnfaithfulDisagrees(co: Coercions, now: int, field: Field, op: Op, value: Value) returns (c: Customer)
    requires CompileCondition(co, now, field, op, value).Some? && !Faithful(co, now, field, op, value)
    ensures !Agree(co, now, field, op, value, c)
  {
    if field == Tag {
      c := Stranger(now);
      TagOperatorIgnored(co, now, op, value, c);
    } else if field == TotalSpent {
      c := Someone(Trunc(co.number(value).value), 0);
      TruncationUnsafe(CmpOf(op).value, co.number(value).value);
    } else if op == MonthDayEq {
      c := Stranger(now);
      MonthDayReadsBirthDate(co, now, field, value);
    } else {
      c := AgeDisagrees(co, now, field, op, value);
    }
  }

  /**
   * A compiled condition selects the customers the condition means, for every customer, exactly
   * when it is faithful.
   */
  lemma ConditionExact(co: Coercions, now: int, field: Field, op: Op, value: Value)
    requires Civil(now / Time.DAY).year > 199
    requires CompileCondition(co, now, field, op, value).Some?
    ensures (forall c :: Agree(co, now, field, op, value, c)) <==> Faithful(co, now, field, op, value)
  {
    if Faithful(co, now, field, op, value) {
      forall c ensures Agree(co, now, field, op, value, c) { FaithfulAgrees(co, now, field, op, value, c); }
    } else {
      var c := UnfaithfulDisagrees(co, now, field, op, value);
    }
  }

  ghost predicate HasLeaf(f: Filter, leaf: Filter)
    decreases f
  {
    match f
    case Condition(_, _, _) => f == leaf
    case _ => exists i :: 0 <= i < |f.parts| && HasLeaf(f.parts[i], leaf)
  }

  /** Compiling throws exactly when some condition on the amount spent has a value that is no number. */
  lemma {:induction false} CompilesExactly(co: Coercions, now: int, f: Filter)
    ensures Compiles(co, now, f)
      <==> forall leaf :: HasLeaf(f, leaf) && leaf.Condition? && leaf.field == TotalSpent ==>
             co.number(leaf.value).Some?
    decreases f
  {
    if f.Condition? {
      assert HasLeaf(f, f);
    } else {
      forall i | 0 <= i < |f.parts|
        ensures Compiles(co, now, f.parts[i])
          <==> forall leaf :: HasLeaf(f.parts[i], leaf) && leaf.Condition? && leaf.field == TotalSpent ==>
                 co.number(leaf.value).Some?
        ensures forall leaf :: HasLeaf(f.parts[i], leaf) ==> HasLeaf(f, leaf)
      {
        CompilesExactly(co, now, f.parts[i]);
      }
    }
  }

  /**
   * For every filter tree whose conditions are all faithful, and every customer, the compiled
   * condition selects the customer exactly when the filter does.
   */
  lemma {:induction false} CompileKeepsMeaning(co: Coercions, now: int, f: Filter, c: Customer)
    requires Civil(now / Time.DAY).year > 199 && Compiles(co, now, f)
    requires forall leaf :: HasLeaf(f, leaf) && leaf.Condition? ==> Faithful(co, now, leaf.field, leaf.op, leaf.value)
    ensures Holds(co, Compile(co, now, f), c) <==> Selects(co, now, c, f)
    decreases f
  {
    if f.Condition? {
      assert HasLeaf(f, f);
      FaithfulAgrees(co, now, f.field, f.op, f.value, c);
    } else {
      var w := Compile(co, now, f);
      forall i | 0 <= i < |f.parts|
        ensures Holds(co, w.parts[i], c) <==> Selects(co, now, c, f.parts[i])
      {
        assert forall leaf :: HasLeaf(f.parts[i], leaf) ==> HasLeaf(f, leaf);
        CompileKeepsMeaning(co, now, f.parts[i], c);
      }
    }
  }

  method BuildBirthdayRanges(today: Date) returns (ranges: seq<Where>)
    requires Valid(today)
    ensures ranges == BirthdayRanges(today)
  {
    var days: seq<int> := [];
    for i := 0 to 101
      invariant days == BirthdaysFrom(today.year - 100, i, today.month, today.day)
    {
      var date := DateUtc(today.year - 100 + i, today.month, today.day);
      var civil := FromDayNumber(date);
      if civil.month == today.month { days := days + [date]; }
    }
    ranges := seq(|days|, i requires 0 <= i < |days| => BornOn(days[i]));
  }
}
