/** packages/shared/src/money.ts: formatting an amount and parsing what a person types. */
module MoneyText {
  import opened Digits
  import opened Wrappers

  datatype Currency = UZS | USD | RUB | EUR | KZT

  function Exponent(code: Currency): nat {
    if code == UZS then 0 else 2
  }

  const NBSP := '\U{A0}'
  const MINUS := '\U{2212}'
  const MAX_SAFE := 9_007_199_254_740_991

  // ── formatting ──

  /** A separator before every group of three digits counted from the right. */
  function GroupDigits(digits: string): string {
    if |digits| <= 3 then digits
    else GroupDigits(digits[..|digits| - 3]) + [NBSP] + digits[|digits| - 3..]
  }

  function PadStart(s: string, k: nat): string {
    if |s| >= k then s else Zeros(k - |s|) + s
  }

  /** The text of `whole` major units and `cents` minor ones. */
  function Text(whole: nat, cents: nat, exponent: nat): string {
    GroupDigits(Decimal(whole)) + Tail(cents, exponent)
  }

  function Fraction(cents: nat, exponent: nat): string {
    if exponent > 0 then PadStart(Decimal(cents), exponent) else ""
  }

  function Tail(cents: nat, exponent: nat): string {
    if exponent > 0 then "." + Fraction(cents, exponent) else ""
  }

  function Quotient(a: nat, b: nat): nat
    requires b > 0
  {
    a / b
  }

  function Remainder(a: nat, b: nat): nat
    requires b > 0
  {
    a % b
  }

  lemma Division(a: nat, b: nat)
    requires b > 0
    ensures Quotient(a, b) * b + Remainder(a, b) == a && Remainder(a, b) < b
  {
  }

  function Unsigned(amount: nat, exponent: nat): string {
    Text(Quotient(amount, Pow10(exponent)), Remainder(amount, Pow10(exponent)), exponent)
  }

  function FormatAt(amount: int, exponent: nat): string {
    if amount < 0 then [MINUS] + Unsigned(-amount, exponent) else Unsigned(amount, exponent)
  }

  function FormatAmount(amount: int, code: Currency): string {
    FormatAt(amount, Exponent(code))
  }

  // ── parsing ──

  /** JavaScript's \s, together with the no-break space and the apostrophe. */
  predicate Ignored(c: char) {
    || c in {' ', '\t', '\n', '\r', '\U{B}', '\U{C}', '\'', NBSP, '\U{1680}', '\U{FEFF}'}
    || '\U{2000}' <= c <= '\U{200A}'
    || c in {'\U{2028}', '\U{2029}', '\U{202F}', '\U{205F}', '\U{3000}'}
  }

  function Strip(s: string): string {
    if s == [] then []
    else if Ignored(s[|s| - 1]) then Strip(s[..|s| - 1])
    else Strip(s[..|s| - 1]) + [s[|s| - 1]]
  }

  predicate Separator(c: char) { c == '.' || c == ',' }

  /** One to three digits, then one or more groups of a separator and exactly three digits. */
  predicate Grouped(s: string) {
    && |s| >= 5 && AllDigits(s[|s| - 3..]) && Separator(s[|s| - 4])
    && var front := s[..|s| - 4];
       (|front| <= 3 && AllDigits(front)) || Grouped(front)
  }

  function WithoutSeparators(s: string): string {
    if s == [] then []
    else if Separator(s[|s| - 1]) then WithoutSeparators(s[..|s| - 1])
    else WithoutSeparators(s[..|s| - 1]) + [s[|s| - 1]]
  }

  function CommasToDots(s: string): (r: string)
    ensures |r| == |s| && forall i :: 0 <= i < |s| ==> r[i] == if s[i] == ',' then '.' else s[i]
  {
    seq(|s|, i requires 0 <= i < |s| => if s[i] == ',' then '.' else s[i])
  }

  function PadEnd(s: string, k: nat): string {
    if |s| >= k then s else s + Zeros(k - |s|)
  }

  predicate ReadAsGroups(body: string) { body != "" && Grouped(body) && body[0] != '0' }

  /** The pieces around the decimal point, when there is at most one and all else is digits. */
  function AroundPoint(pieces: seq<string>): Option<(string, string)>
    requires |pieces| >= 1
  {
    var w, f := pieces[0], if |pieces| > 1 then pieces[1] else "";
    if |pieces| > 2 || !AllDigits(w) || !AllDigits(f) then None
    else if w == "" && f == "" then None
    else Some((if w == "" then "0" else w, f))
  }

  /** The whole and fraction digits of an unsigned amount, or None when it is not one. */
  function Parts(body: string): Option<(string, string)> {
    if ReadAsGroups(body) then Some((WithoutSeparators(body), ""))
    else AroundPoint(Split(CommasToDots(body), '.'))
  }

  /** The number read from the digits, with the fraction cut or padded to the exponent. */
  function Value(whole: string, fraction: string, exponent: nat): Option<nat> {
    var shown := if |fraction| > exponent then fraction[..exponent] else fraction;
    match ParseDigits(whole + PadEnd(shown, exponent))
    case None => None
    case Some(value) => if value > MAX_SAFE then None else Some(value)
  }

  function Signed(value: nat, negative: bool): int {
    if negative then 0 - value else value
  }

  function ParseAt(input: string, exponent: nat): Option<int> {
    ParseCleaned(Strip(input), exponent)
  }

  function ParseCleaned(cleaned: string, exponent: nat): Option<int> {
    if cleaned == "" then None
    else
      var negative := cleaned[0] == '-';
      var body := if negative then cleaned[1..] else cleaned;
      if body == "" then None
      else
        match Parts(body)
        case None => None
        case Some((whole, fraction)) =>
          match Value(whole, fraction, exponent)
          case None => None
          case Some(value) => Some(Signed(value, negative))
  }

  function ParseMoney(input: string, code: Currency): Option<int> {
    ParseAt(input, Exponent(code))
  }

  // ── round trip ──

  lemma {:induction false} StripConcat(s: string, t: string)
    ensures Strip(s + t) == Strip(s) + Strip(t)
  {
    if t == [] {
      assert s + t == s;
    } else {
      assert (s + t)[..|s + t| - 1] == s + t[..|t| - 1];
      StripConcat(s, t[..|t| - 1]);
    }
  }

  lemma {:induction false} StripKeeps(s: string)
    requires forall i :: 0 <= i < |s| ==> !Ignored(s[i])
    ensures Strip(s) == s
  {
    if s != [] {
      StripKeeps(s[..|s| - 1]);
    }
  }

  lemma StripGroup(grouped: string, front: string, back: string)
    requires Strip(grouped) == front && AllDigits(back)
    ensures Strip(grouped + [NBSP] + back) == front + back
  {
    StripNothing();
    StripKeeps(back);
    StripConcat(grouped, [NBSP]);
    StripConcat(grouped + [NBSP], back);
    assert front + [] == front;
  }

  lemma StripNothing()
    ensures Strip([NBSP]) == []
  {
    assert [NBSP][..0] == [];
  }

  /** Grouping only adds characters that parsing ignores. */
  lemma {:induction false} StripUngroups(digits: string)
    requires AllDigits(digits)
    ensures Strip(GroupDigits(digits)) == digits
  {
    if |digits| <= 3 {
      StripKeeps(digits);
    } else {
      var front, back := digits[..|digits| - 3], digits[|digits| - 3..];
      StripUngroups(front);
      StripGroup(GroupDigits(front), front, back);
      assert front + back == digits;
    }
  }

  lemma ZerosInFront(zeros: string, s: string, n: nat)
    requires AllDigits(zeros) && AllDigits(s) && ParseDigits(zeros) == Some(0) && ParseDigits(s) == Some(n)
    ensures ParseDigits(zeros + s) == Some(n)
  {
    ParseConcat(zeros, s);
    assert 0 * Pow10(|s|) == 0;
  }

  lemma PadStartParses(n: nat, k: nat)
    requires k >= 1 && n < Pow10(k)
    ensures |PadStart(Decimal(n), k)| == k && AllDigits(PadStart(Decimal(n), k))
    ensures ParseDigits(PadStart(Decimal(n), k)) == Some(n)
  {
    DecimalLength(n, k);
    ParseDecimal(n);
    PaddedParses(Decimal(n), n, k);
  }

  lemma PaddedParses(s: string, n: nat, k: nat)
    requires AllDigits(s) && |s| <= k && ParseDigits(s) == Some(n)
    ensures |PadStart(s, k)| == k && AllDigits(PadStart(s, k)) && ParseDigits(PadStart(s, k)) == Some(n)
  {
    if |s| < k {
      ParseZeros(k - |s|);
      ZerosInFront(Zeros(k - |s|), s, n);
    }
  }

  /** What is left of an unsigned text once the grouping is stripped. */
  function Plain(whole: nat, cents: nat, exponent: nat): string {
    Decimal(whole) + Tail(cents, exponent)
  }

  lemma TailNotIgnored(cents: nat, exponent: nat)
    requires cents < Pow10(exponent)
    ensures forall i :: 0 <= i < |Tail(cents, exponent)| ==> !Ignored(Tail(cents, exponent)[i])
  {
    if exponent > 0 { PadStartParses(cents, exponent); }
  }

  lemma StripTail(grouped: string, digits: string, tail: string)
    requires Strip(grouped) == digits && forall i :: 0 <= i < |tail| ==> !Ignored(tail[i])
    ensures Strip(grouped + tail) == digits + tail
  {
    StripConcat(grouped, tail);
    StripKeeps(tail);
  }

  lemma StripText(whole: nat, cents: nat, exponent: nat)
    requires cents < Pow10(exponent)
    ensures Strip(Text(whole, cents, exponent)) == Plain(whole, cents, exponent)
  {
    StripUngroups(Decimal(whole));
    TailNotIgnored(cents, exponent);
    StripTail(GroupDigits(Decimal(whole)), Decimal(whole), Tail(cents, exponent));
  }

  lemma DigitsNotGrouped(s: string)
    requires AllDigits(s)
    ensures !Grouped(s)
  {
  }

  lemma ThreeAfterPoint(w: string, f: string)
    requires AllDigits(w) && AllDigits(f) && |w| >= 1 && |f| == 3
    ensures Grouped(w + "." + f) <==> |w| <= 3
  {
    var s := w + "." + f;
    assert s[..|s| - 4] == w && s[|s| - 3..] == f && s[|s| - 4] == '.';
    DigitsNotGrouped(w);
  }

  lemma FewAfterPoint(w: string, f: string)
    requires AllDigits(w) && AllDigits(f) && |w| >= 1 && 1 <= |f| < 3
    ensures !Grouped(w + "." + f)
  {
    var s := w + "." + f;
    assert s[|w|] == '.';
    assert |s| >= 5 ==> s[|s| - 3..][|w| - (|s| - 3)] == '.';
  }

  lemma ManyAfterPoint(w: string, f: string)
    requires AllDigits(w) && AllDigits(f) && |w| >= 1 && |f| > 3
    ensures !Grouped(w + "." + f)
  {
    var s := w + "." + f;
    assert s[|s| - 4] == f[|f| - 4];
  }

  /** digits "." digits is read as grouped thousands only when the fraction has exactly three digits. */
  lemma DecimalNotGrouped(w: string, f: string)
    requires AllDigits(w) && AllDigits(f) && |w| >= 1 && |f| >= 1
    ensures Grouped(w + "." + f) <==> |f| == 3 && |w| <= 3
  {
    if |f| == 3 {
      ThreeAfterPoint(w, f);
    } else if |f| < 3 {
      FewAfterPoint(w, f);
    } else {
      ManyAfterPoint(w, f);
    }
  }

  lemma NoCommas(s: string)
    requires ',' !in s
    ensures CommasToDots(s) == s
  {
  }

  lemma PointParts(w: string, f: string)
    requires AllDigits(w) && AllDigits(f) && |w| >= 1 && |f| >= 1
    requires |f| == 3 && |w| <= 3 ==> w[0] == '0'
    ensures Parts(w + "." + f) == Some((w, f))
  {
    var s := w + "." + f;
    DecimalNotGrouped(w, f);
    assert s[0] == w[0];
    NoCommas(s);
    SplitOnce(w, '.', f);
  }

  lemma DigitParts(w: string)
    requires AllDigits(w) && |w| >= 1
    ensures Parts(w) == Some((w, ""))
  {
    DigitsNotGrouped(w);
    NoCommas(w);
    SplitWithout(w, '.');
  }

  /** Digits, then a point and more digits unless there are none. */
  function Joined(w: string, f: string): string {
    if f == "" then w else w + "." + f
  }

  lemma JoinedParts(w: string, f: string)
    requires AllDigits(w) && AllDigits(f) && w != ""
    requires |f| == 3 && |w| <= 3 ==> w[0] == '0'
    ensures Parts(Joined(w, f)) == Some((w, f))
  {
    if f == "" { DigitParts(w); } else { PointParts(w, f); }
  }

  lemma PlainIsJoined(whole: nat, cents: nat, exponent: nat)
    requires cents < Pow10(exponent)
    ensures Plain(whole, cents, exponent) == Joined(Decimal(whole), Fraction(cents, exponent))
  {
    if exponent > 0 {
      PadStartParses(cents, exponent);
      Reassociate(Decimal(whole), Fraction(cents, exponent));
    } else {
      assert Decimal(whole) + "" == Decimal(whole);
    }
  }

  lemma Reassociate(w: string, f: string)
    ensures w + ("." + f) == w + "." + f
  {
  }

  lemma Thousand()
    ensures Pow10(3) == 1_000
  {
    assert Pow10(1) == 10 && Pow10(2) == 100;
  }

  /** The digits of the parts put together are the amount again. */
  lemma PartsRecombine(whole: nat, cents: nat, exponent: nat)
    requires cents < Pow10(exponent)
    ensures |Fraction(cents, exponent)| == exponent
    ensures AllDigits(Decimal(whole) + Fraction(cents, exponent))
    ensures ParseDigits(Decimal(whole) + Fraction(cents, exponent)) == Some(whole * Pow10(exponent) + cents)
  {
    ParseDecimal(whole);
    if exponent == 0 {
      assert Decimal(whole) + "" == Decimal(whole);
    } else {
      PadStartParses(cents, exponent);
      ParseConcat(Decimal(whole), Fraction(cents, exponent));
    }
  }

  /** An unsigned text stripped of its grouping: whole digits and exactly `exponent` fraction digits. */
  lemma TextReads(text: string, whole: nat, cents: nat, exponent: nat, amount: nat) returns (w: string, f: string)
    requires text == Text(whole, cents, exponent)
    requires cents < Pow10(exponent) && whole * Pow10(exponent) + cents == amount
    ensures AllDigits(w + f) && w != "" && |f| == exponent
    ensures Strip(text) == Joined(w, f) && ParseDigits(w + f) == Some(amount)
    ensures (|w| <= 3 <==> whole < 1_000) && (whole > 0 <==> w[0] != '0')
  {
    StripText(whole, cents, exponent);
    PlainIsJoined(whole, cents, exponent);
    PartsRecombine(whole, cents, exponent);
    FewDigits(whole);
    w, f := Decimal(whole), Fraction(cents, exponent);
  }

  lemma FewDigits(whole: nat)
    ensures (|Decimal(whole)| <= 3 <==> whole < 1_000) && (whole > 0 <==> Decimal(whole)[0] != '0')
  {
    Thousand();
    DecimalLength(whole, 3);
  }

  lemma JoinedStarts(w: string, f: string)
    requires AllDigits(w) && w != ""
    ensures Joined(w, f) != "" && IsDigit(Joined(w, f)[0])
  {
    assert Joined(w, f)[0] == w[0];
  }

  lemma ReadAsDecimal(text: string, w: string, f: string, exponent: nat, amount: nat)
    requires AllDigits(w + f) && w != "" && |f| == exponent
    requires |f| == 3 && |w| <= 3 ==> w[0] == '0'
    requires Strip(text) == Joined(w, f) && ParseDigits(w + f) == Some(amount)
    ensures ParseAt(text, exponent) == if amount <= MAX_SAFE then Some(amount) else None
  {
    DigitsApart(w, f);
    JoinedParts(w, f);
    JoinedStarts(w, f);
    ParseStripped(text, Joined(w, f), exponent);
    ExactValue(w, f, exponent, amount);
  }

  lemma DigitsApart(w: string, f: string)
    requires AllDigits(w + f)
    ensures AllDigits(w) && AllDigits(f)
  {
    forall i | 0 <= i < |w| ensures IsDigit(w[i]) { assert (w + f)[i] == w[i]; }
    forall i | 0 <= i < |f| ensures IsDigit(f[i]) { assert (w + f)[|w| + i] == f[i]; }
  }

  lemma ExactValue(whole: string, fraction: string, exponent: nat, amount: nat)
    requires |fraction| == exponent && ParseDigits(whole + fraction) == Some(amount)
    ensures Value(whole, fraction, exponent) == if amount <= MAX_SAFE then Some(amount) else None
  {
  }

  /** A negative amount carries a typographic minus, which the parser does not know. */
  lemma NegativeNotParsed(text: string, whole: nat, cents: nat, exponent: nat)
    requires cents < Pow10(exponent) && text == [MINUS] + Text(whole, cents, exponent)
    ensures ParseAt(text, exponent) == None
  {
    StripText(whole, cents, exponent);
    StripConcat([MINUS], Text(whole, cents, exponent));
    StripKeeps([MINUS]);
    MinusRefused([MINUS] + Plain(whole, cents, exponent), exponent);
  }

  lemma MinusRefused(s: string, exponent: nat)
    requires s != [] && s[0] == MINUS
    ensures ParseCleaned(s, exponent) == None
  {
    MinusStaysFirst(s);
  }

  lemma {:induction false} NotGroupedUnlessDigitFirst(s: string)
    requires s != [] && !IsDigit(s[0])
    ensures !Grouped(s)
  {
    if |s| >= 5 { NotGroupedUnlessDigitFirst(s[..|s| - 4]); }
  }

  lemma MinusStaysFirst(s: string)
    requires s != [] && s[0] == MINUS
    ensures Parts(s) == None
  {
    NotGroupedUnlessDigitFirst(s);
    var parts := Split(CommasToDots(s), '.');
    assert parts[0] != [] && parts[0][0] == MINUS;
    assert !IsDigit(parts[0][0]);
  }

  /**
   * With three decimal places the parser would mistake the fraction for a group of thousands
   * and return a thousand times the amount.
   */
  lemma ReadAsThousands(text: string, w: string, f: string, exponent: nat, n: nat)
    requires AllDigits(w + f) && 1 <= |w| <= 3 && |f| == exponent == 3 && w[0] != '0'
    requires Strip(text) == Joined(w, f) && ParseDigits(w + f) == Some(n) && 1_000 * n <= MAX_SAFE
    ensures ParseAt(text, exponent) == Some(1_000 * n)
  {
    DigitsApart(w, f);
    GroupParts(w, f);
    JoinedStarts(w, f);
    PaddedValue(w + f, n, exponent);
    ParseStripped(text, Joined(w, f), exponent);
  }

  lemma GroupParts(w: string, f: string)
    requires AllDigits(w) && AllDigits(f) && 1 <= |w| <= 3 && |f| == 3 && w[0] != '0'
    ensures Parts(w + "." + f) == Some((w + f, ""))
  {
    DecimalNotGrouped(w, f);
    assert (w + "." + f)[0] == w[0];
    SeparatorsGone(w, f);
  }

  lemma ZerosAppended(s: string, zeros: string, n: nat)
    requires AllDigits(s) && AllDigits(zeros) && |zeros| == 3
    requires ParseDigits(s) == Some(n) && ParseDigits(zeros) == Some(0)
    ensures ParseDigits(s + zeros) == Some(1_000 * n)
  {
    Thousand();
    ParseConcat(s, zeros);
  }

  lemma PaddedWith(s: string, zeros: string, exponent: nat)
    requires zeros == Zeros(exponent) && ParseDigits(s + zeros).Some? && ParseDigits(s + zeros).value <= MAX_SAFE
    ensures Value(s, "", exponent) == ParseDigits(s + zeros)
  {
    assert PadEnd("", exponent) == zeros by { assert "" + zeros == zeros; }
  }

  lemma PaddedValue(s: string, n: nat, exponent: nat)
    requires exponent == 3 && AllDigits(s) && ParseDigits(s) == Some(n) && 1_000 * n <= MAX_SAFE
    ensures Value(s, "", exponent) == Some(1_000 * n)
  {
    ParseZeros(exponent);
    ZerosAppended(s, Zeros(exponent), n);
    PaddedWith(s, Zeros(exponent), exponent);
  }

  /** Once the ignored characters are gone and a digit comes first, only the parts matter. */
  lemma ParseStripped(input: string, body: string, exponent: nat)
    requires Strip(input) == body && body != "" && IsDigit(body[0]) && Parts(body).Some?
    ensures ParseAt(input, exponent) == Value(Parts(body).value.0, Parts(body).value.1, exponent)
  {
  }

  lemma {:induction false} SeparatorsGone(w: string, f: string)
    requires AllDigits(w) && AllDigits(f)
    ensures WithoutSeparators(w + "." + f) == w + f
  {
    if f == [] {
      assert (w + "." + f)[..|w|] == w && w + f == w;
      DigitsKept(w);
    } else {
      assert (w + "." + f)[..|w + "." + f| - 1] == w + "." + f[..|f| - 1];
      SeparatorsGone(w, f[..|f| - 1]);
      assert w + f == w + f[..|f| - 1] + [f[|f| - 1]];
    }
  }

  lemma {:induction false} DigitsKept(w: string)
    requires AllDigits(w)
    ensures WithoutSeparators(w) == w
  {
    if w != [] { DigitsKept(w[..|w| - 1]); }
  }

  /**
   * With three decimal places an amount from one to below a thousand whole units is printed as
   * what the parser takes for thousands, and comes back a thousand times too large.
   */
  lemma ThreeDecimalsMisread(amount: int)
    requires 1_000 <= amount < 1_000_000
    ensures ParseAt(FormatAt(amount, 3), 3) == Some(1_000 * amount)
  {
    MisreadAt(amount, 3);
  }

  lemma MisreadAt(amount: nat, exponent: nat)
    requires exponent == 3 && 1_000 <= amount < 1_000_000
    ensures ParseAt(Unsigned(amount, exponent), exponent) == Some(1_000 * amount)
  {
    var whole, cents := Quotient(amount, Pow10(exponent)), Remainder(amount, Pow10(exponent));
    Division(amount, Pow10(exponent));
    Thousand();
    ThousandsRange(amount, whole, cents);
    var w, f := TextReads(Unsigned(amount, exponent), whole, cents, exponent, amount);
    ReadAsThousands(Unsigned(amount, exponent), w, f, exponent, amount);
  }

  lemma NegativeRefused(amount: int, exponent: nat)
    requires amount < 0
    ensures ParseAt(FormatAt(amount, exponent), exponent) == None
  {
    var divisor := Pow10(exponent);
    Division(-amount, divisor);
    NegativeNotParsed(FormatAt(amount, exponent), Quotient(-amount, divisor), Remainder(-amount, divisor), exponent);
  }

  lemma ThousandsRange(amount: nat, whole: nat, cents: nat)
    requires whole * 1_000 + cents == amount && cents < 1_000
    ensures 1 <= whole < 1_000 <==> 1_000 <= amount < 1_000_000
  {
  }

  lemma PartsRoundTrip(text: string, amount: nat, whole: nat, cents: nat, exponent: nat)
    requires text == Text(whole, cents, exponent)
    requires cents < Pow10(exponent) && whole * Pow10(exponent) + cents == amount
    ensures ParseAt(text, exponent) == Some(amount) <==>
      amount <= MAX_SAFE && !(exponent == 3 && 1_000 <= amount < 1_000_000)
  {
    var w, f := TextReads(text, whole, cents, exponent, amount);
    if exponent == 3 {
      Thousand();
      ThousandsRange(amount, whole, cents);
    }
    if exponent == 3 && 1 <= whole < 1_000 {
      ReadAsThousands(text, w, f, exponent, amount);
    } else {
      ReadAsDecimal(text, w, f, exponent, amount);
    }
  }

  lemma UnsignedRoundTrip(amount: nat, exponent: nat)
    ensures ParseAt(Unsigned(amount, exponent), exponent) == Some(amount) <==>
      amount <= MAX_SAFE && !(exponent == 3 && 1_000 <= amount < 1_000_000)
  {
    var whole, cents := Quotient(amount, Pow10(exponent)), Remainder(amount, Pow10(exponent));
    Division(amount, Pow10(exponent));
    PartsRoundTrip(Unsigned(amount, exponent), amount, whole, cents, exponent);
  }

  /**
   * Printer and parser undo each other, for any number of decimal places, exactly on the
   * non-negative safe integers; three decimal places are the one exception.
   */
  lemma RoundTripAt(amount: int, exponent: nat)
    ensures ParseAt(FormatAt(amount, exponent), exponent) == Some(amount) <==>
      0 <= amount <= MAX_SAFE && !(exponent == 3 && 1_000 <= amount < 1_000_000)
  {
    if amount < 0 {
      NegativeRefused(amount, exponent);
    } else {
      UnsignedRoundTrip(amount, exponent);
    }
  }

  /** In every currency of the table. */
  lemma RoundTrip(amount: int, code: Currency)
    ensures ParseMoney(FormatAmount(amount, code), code) == Some(amount) <==> 0 <= amount <= MAX_SAFE
  {
    RoundTripAt(amount, Exponent(code));
  }
}
