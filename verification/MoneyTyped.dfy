/** packages/shared/src/money.ts: what a person types, and how printed amounts look. */
module MoneyTyped {
  import opened Digits
  import opened MoneyText
  import opened Wrappers

  // ── values ──

  lemma {:induction false} ParseBelow(s: string, n: nat)
    requires ParseDigits(s) == Some(n)
    ensures n < Pow10(|s|)
  {
    if s != [] {
      ParseBelow(s[..|s| - 1], ParseDigits(s[..|s| - 1]).value);
    }
  }

  /** The digits that count, in a fraction cut or padded to the exponent. */
  function Shown(f: string, exponent: nat): string {
    if |f| > exponent then f[..exponent] else f + Zeros(exponent - |f|)
  }

  lemma ShownDigits(f: string, exponent: nat)
    requires AllDigits(f)
    ensures |Shown(f, exponent)| == exponent && AllDigits(Shown(f, exponent))
  {
  }

  lemma PaddedFraction(f: string, zeros: string, n: nat)
    requires AllDigits(f) && AllDigits(zeros) && ParseDigits(f) == Some(n) && ParseDigits(zeros) == Some(0)
    ensures ParseDigits(f + zeros) == Some(n * Pow10(|zeros|))
  {
    ParseConcat(f, zeros);
  }

  /** A fraction no longer than the exponent is worth its digits with zeros behind them. */
  lemma ShortFraction(f: string, exponent: nat, n: nat)
    requires AllDigits(f) && |f| <= exponent && ParseDigits(f) == Some(n)
    ensures ParseDigits(Shown(f, exponent)) == Some(n * Pow10(exponent - |f|))
  {
    ParseZeros(exponent - |f|);
    PaddedFraction(f, Zeros(exponent - |f|), n);
  }

  lemma JoinedValue(w: string, shown: string, whole: nat, part: nat)
    requires AllDigits(w) && AllDigits(shown) && ParseDigits(w) == Some(whole) && ParseDigits(shown) == Some(part)
    ensures ParseDigits(w + shown) == Some(whole * Pow10(|shown|) + part)
  {
    ParseConcat(w, shown);
  }

  lemma ValueOfShown(w: string, f: string, exponent: nat, v: nat)
    requires ParseDigits(w + Shown(f, exponent)) == Some(v)
    ensures Value(w, f, exponent) == if v <= MAX_SAFE then Some(v) else None
  {
    var shown := if |f| > exponent then f[..exponent] else f;
    assert PadEnd(shown, exponent) == Shown(f, exponent) by {
      if |f| == exponent { assert f + Zeros(0) == f; }
    }
  }

  /** What is cut off is less than one unit of what is kept. */
  lemma CutValue(kept: string, cut: string, v: nat, all: nat)
    requires AllDigits(kept) && AllDigits(cut) && ParseDigits(kept) == Some(v) && ParseDigits(kept + cut) == Some(all)
    ensures v * Pow10(|cut|) <= all < (v + 1) * Pow10(|cut|)
  {
    ParseConcat(kept, cut);
    ParseBelow(cut, ParseDigits(cut).value);
    NextUnit(v, Pow10(|cut|), ParseDigits(cut).value, all);
  }

  lemma NextUnit(v: int, p: int, r: int, all: int)
    requires all == v * p + r && 0 <= r < p
    ensures v * p <= all < (v + 1) * p
  {
    assert (v + 1) * p == v * p + p;
  }

  // ── decimals ──

  lemma NotNoise(c: char)
    requires IsDigit(c) || Separator(c) || c == '-'
    ensures !Ignored(c)
  {
  }

  lemma NothingIgnored(s: string)
    requires forall i :: 0 <= i < |s| ==> IsDigit(s[i]) || Separator(s[i]) || s[i] == '-'
    ensures Strip(s) == s
  {
    forall i | 0 <= i < |s| ensures !Ignored(s[i]) { NotNoise(s[i]); }
    StripKeeps(s);
  }

  lemma ThreeBehind(w: string, sep: char, f: string)
    requires AllDigits(w) && AllDigits(f) && Separator(sep) && |f| == 3
    ensures Grouped(w + [sep] + f) <==> 1 <= |w| <= 3
  {
    var s := w + [sep] + f;
    assert s[..|s| - 4] == w && s[|s| - 3..] == f && s[|s| - 4] == sep;
    DigitsNotGrouped(w);
  }

  lemma FewBehind(w: string, sep: char, f: string)
    requires Separator(sep) && |f| < 3
    ensures !Grouped(w + [sep] + f)
  {
    var s := w + [sep] + f;
    assert s[|w|] == sep && !IsDigit(sep);
    assert |s| >= 5 ==> s[|s| - 3..][|w| - (|s| - 3)] == sep;
  }

  lemma ManyBehind(w: string, sep: char, f: string)
    requires AllDigits(f) && |f| > 3
    ensures !Grouped(w + [sep] + f)
  {
    var s := w + [sep] + f;
    assert s[|s| - 4] == f[|f| - 4];
  }

  /** Digits, a separator and digits read as grouped thousands exactly when the shape is that of one group. */
  lemma OnePointGrouped(w: string, sep: char, f: string)
    requires AllDigits(w) && AllDigits(f) && Separator(sep)
    ensures Grouped(w + [sep] + f) <==> |f| == 3 && 1 <= |w| <= 3
  {
    if |f| == 3 {
      ThreeBehind(w, sep, f);
    } else if |f| < 3 {
      FewBehind(w, sep, f);
    } else {
      ManyBehind(w, sep, f);
    }
  }

  lemma DottedIs(w: string, sep: char, f: string)
    requires AllDigits(w) && AllDigits(f) && Separator(sep)
    ensures CommasToDots(w + [sep] + f) == w + ['.'] + f
  {
    var s, t := w + [sep] + f, w + ['.'] + f;
    forall i | 0 <= i < |s| ensures CommasToDots(s)[i] == t[i] {
      if i < |w| { assert s[i] == w[i]; } else if i > |w| { assert s[i] == f[i - |w| - 1]; }
    }
  }

  lemma NoPoint(s: string)
    requires AllDigits(s)
    ensures '.' !in s && ',' !in s
  {
  }

  lemma OnePointParts(text: string, w: string, sep: char, f: string)
    requires text == w + [sep] + f && AllDigits(w) && AllDigits(f) && Separator(sep)
    requires (w != "" || f != "") && !(|f| == 3 && 1 <= |w| <= 3 && w[0] != '0')
    ensures Parts(text) == Some((if w == "" then "0" else w, f))
  {
    OnePointGrouped(w, sep, f);
    if w != "" { assert text[0] == w[0]; }
    DottedIs(w, sep, f);
    NoPoint(w);
    NoPoint(f);
    SplitOnce(w, '.', f);
  }

  lemma TextStays(text: string, w: string, sep: char, f: string)
    requires text == w + [sep] + f && AllDigits(w) && AllDigits(f) && Separator(sep)
    ensures Strip(text) == text && text != "" && text[0] != '-'
  {
    forall i | 0 <= i < |text| ensures IsDigit(text[i]) || Separator(text[i]) {
      if i < |w| { assert text[i] == w[i]; } else if i > |w| { assert text[i] == f[i - |w| - 1]; }
    }
    NothingIgnored(text);
  }

  lemma Unsigned(text: string, whole: string, fraction: string, exponent: nat)
    requires Strip(text) == text && text != "" && text[0] != '-' && Parts(text) == Some((whole, fraction))
    ensures ParseAt(text, exponent) == Value(whole, fraction, exponent)
  {
  }

  /** The number that the whole digits denote; no digits before the point stand for none. */
  lemma WholeOrZero(w: string, whole: nat)
    requires ParseDigits(w) == Some(whole)
    ensures ParseDigits(if w == "" then "0" else w) == Some(whole)
    ensures AllDigits(w) && AllDigits(if w == "" then "0" else w)
  {
    ParsesIffDigits(w);
    assert "0"[..0] == [] && ParseDigits("0") == Some(0);
  }

  /** A typed decimal is read as its digits either side of the separator. */
  lemma DecimalRead(text: string, w: string, sep: char, f: string, exponent: nat, whole: nat) returns (digits: string)
    requires text == w + [sep] + f && sep in {'.', ','} && (w != "" || f != "")
    requires ParseDigits(w) == Some(whole) && AllDigits(f)
    requires !(|f| == 3 && 1 <= |w| <= 3 && w[0] != '0')
    ensures AllDigits(w) && AllDigits(digits) && ParseDigits(digits) == Some(whole) && (w != "" ==> digits == w)
    ensures ParseAt(text, exponent) == Value(digits, f, exponent)
  {
    WholeOrZero(w, whole);
    TextStays(text, w, sep, f);
    OnePointParts(text, w, sep, f);
    digits := if w == "" then "0" else w;
    Unsigned(text, digits, f, exponent);
  }

  lemma ShortValue(digits: string, f: string, exponent: nat, whole: nat, part: nat)
    requires AllDigits(digits) && AllDigits(f) && |f| <= exponent
    requires ParseDigits(digits) == Some(whole) && ParseDigits(f) == Some(part)
    ensures var v := whole * Pow10(exponent) + part * Pow10(exponent - |f|);
      Value(digits, f, exponent) == if v <= MAX_SAFE then Some(v) else None
  {
    ShownDigits(f, exponent);
    ShortFraction(f, exponent, part);
    JoinedValue(digits, Shown(f, exponent), whole, part * Pow10(exponent - |f|));
    ValueOfShown(digits, f, exponent, whole * Pow10(exponent) + part * Pow10(exponent - |f|));
  }

  /**
   * A typed decimal with either separator, the digits on one side possibly missing, that does not
   * have the shape of grouped thousands: the whole units and the fraction in smallest units.
   */
  lemma TypedDecimal(text: string, w: string, sep: char, f: string, exponent: nat, whole: nat, part: nat)
    requires text == w + [sep] + f && sep in {'.', ','} && (w != "" || f != "")
    requires ParseDigits(w) == Some(whole) && ParseDigits(f) == Some(part)
    requires !(|f| == 3 && 1 <= |w| <= 3 && w[0] != '0')
    requires |f| <= exponent
    ensures var v := whole * Pow10(exponent) + part * Pow10(exponent - |f|);
      ParseAt(text, exponent) == if v <= MAX_SAFE then Some(v) else None
  {
    ParsesIffDigits(f);
    var digits := DecimalRead(text, w, sep, f, exponent, whole);
    ShortValue(digits, f, exponent, whole, part);
  }

  /** The largest number of smallest units that does not exceed a number with `cut` more decimal places. */
  predicate RoundedDown(v: nat, all: nat, cut: nat) {
    v * Pow10(cut) <= all < (v + 1) * Pow10(cut)
  }

  /** Cutting a fraction to the exponent rounds the amount down to whole smallest units. */
  lemma LongValue(digits: string, w: string, f: string, exponent: nat, whole: nat, all: nat) returns (v: nat)
    requires AllDigits(digits) && AllDigits(w) && AllDigits(f) && |f| > exponent
    requires ParseDigits(digits) == Some(whole) && ParseDigits(w) == Some(whole) && ParseDigits(w + f) == Some(all)
    ensures RoundedDown(v, all, |f| - exponent)
    ensures Value(digits, f, exponent) == if v <= MAX_SAFE then Some(v) else None
  {
    var kept, cut := f[..exponent], f[exponent..];
    ParsesIffDigits(kept);
    JoinedValue(w, kept, whole, ParseDigits(kept).value);
    JoinedValue(digits, kept, whole, ParseDigits(kept).value);
    v := ParseDigits(w + kept).value;
    assert w + f == (w + kept) + cut;
    CutValue(w + kept, cut, v, all);
    ValueOfShown(digits, f, exponent, v);
  }

  /** A typed decimal with more places than the currency has. */
  lemma TypedLongDecimal(text: string, w: string, sep: char, f: string, exponent: nat, all: nat) returns (v: nat)
    requires text == w + [sep] + f && sep in {'.', ','}
    requires AllDigits(w) && AllDigits(f) && ParseDigits(w + f) == Some(all)
    requires !(|f| == 3 && 1 <= |w| <= 3 && w[0] != '0')
    requires |f| > exponent
    ensures RoundedDown(v, all, |f| - exponent)
    ensures ParseAt(text, exponent) == if v <= MAX_SAFE then Some(v) else None
  {
    ParsesIffDigits(w);
    var whole := ParseDigits(w).value;
    var digits := DecimalRead(text, w, sep, f, exponent, whole);
    v := LongValue(digits, w, f, exponent, whole, all);
  }

  /** A point alone is no amount. */
  lemma PointAlone(sep: char, exponent: nat)
    requires sep in {'.', ','}
    ensures ParseAt([sep], exponent) == None
  {
    var text := [sep];
    assert text == "" + [sep] + "";
    TextStays(text, "", sep, "");
    OnePointGrouped("", sep, "");
    DottedIs("", sep, "");
    SplitOnce("", '.', "");
  }

  lemma DigitsRead(text: string, exponent: nat)
    requires text != "" && AllDigits(text)
    ensures ParseAt(text, exponent) == Value(text, "", exponent)
  {
    NothingIgnored(text);
    DigitParts(text);
    Unsigned(text, text, "", exponent);
  }

  lemma NoFraction(digits: string, exponent: nat, whole: nat, none: string)
    requires AllDigits(digits) && ParseDigits(digits) == Some(whole) && none == ""
    ensures var v := whole * Pow10(exponent);
      Value(digits, none, exponent) == if v <= MAX_SAFE then Some(v) else None
  {
    ShortValue(digits, none, exponent, whole, 0);
  }

  /** Digits alone are whole units. */
  lemma TypedWhole(text: string, exponent: nat, whole: nat)
    requires text != "" && ParseDigits(text) == Some(whole)
    ensures var v := whole * Pow10(exponent);
      ParseAt(text, exponent) == if v <= MAX_SAFE then Some(v) else None
  {
    ParsesIffDigits(text);
    DigitsRead(text, exponent);
    NoFraction(text, exponent, whole, "");
  }

  // ── grouped thousands ──

  datatype Group = Group(sep: char, digits: string)

  predicate IsGroup(g: Group) { g.sep in {'.', ','} && |g.digits| == 3 && AllDigits(g.digits) }

  predicate AreGroups(groups: seq<Group>) { forall i :: 0 <= i < |groups| ==> IsGroup(groups[i]) }

  /** Digits, then groups each behind its separator. */
  function Typed(head: string, groups: seq<Group>): string {
    if groups == [] then head
    else
      var last := groups[|groups| - 1];
      Typed(head, groups[..|groups| - 1]) + [last.sep] + last.digits
  }

  /** All the digits, without the separators. */
  function AllOf(head: string, groups: seq<Group>): string {
    if groups == [] then head else AllOf(head, groups[..|groups| - 1]) + groups[|groups| - 1].digits
  }

  lemma {:induction false} AllOfDigits(head: string, groups: seq<Group>)
    requires AllDigits(head) && AreGroups(groups)
    ensures AllDigits(AllOf(head, groups))
  {
    if groups != [] { AllOfDigits(head, groups[..|groups| - 1]); }
  }

  lemma {:induction false} TypedIsGrouped(head: string, groups: seq<Group>)
    requires AllDigits(head) && 1 <= |head| <= 3 && AreGroups(groups) && groups != []
    ensures Grouped(Typed(head, groups))
  {
    var front, last := groups[..|groups| - 1], groups[|groups| - 1];
    var before := Typed(head, front);
    if front != [] { TypedIsGrouped(head, front); }
    GroupAppended(before, last);
  }

  lemma GroupAppended(before: string, g: Group)
    requires IsGroup(g) && ((1 <= |before| <= 3 && AllDigits(before)) || Grouped(before))
    ensures Grouped(before + [g.sep] + g.digits)
  {
    var s := before + [g.sep] + g.digits;
    assert s[..|s| - 4] == before && s[|s| - 3..] == g.digits && s[|s| - 4] == g.sep;
  }

  lemma {:induction false} TypedChars(head: string, groups: seq<Group>)
    requires AllDigits(head) && 1 <= |head| && AreGroups(groups)
    ensures Typed(head, groups) != "" && Typed(head, groups)[0] == head[0]
    ensures forall i :: 0 <= i < |Typed(head, groups)| ==>
      IsDigit(Typed(head, groups)[i]) || Separator(Typed(head, groups)[i])
  {
    if groups != [] { TypedChars(head, groups[..|groups| - 1]); }
  }

  lemma {:induction false} WithoutConcat(s: string, t: string)
    ensures WithoutSeparators(s + t) == WithoutSeparators(s) + WithoutSeparators(t)
  {
    if t == [] {
      assert s + t == s;
    } else {
      assert (s + t)[..|s + t| - 1] == s + t[..|t| - 1];
      WithoutConcat(s, t[..|t| - 1]);
    }
  }

  lemma WithoutOne(sep: char)
    requires Separator(sep)
    ensures WithoutSeparators([sep]) == []
  {
    assert [sep][..0] == [];
  }

  lemma {:induction false} TypedDigits(head: string, groups: seq<Group>)
    requires AllDigits(head) && AreGroups(groups)
    ensures WithoutSeparators(Typed(head, groups)) == AllOf(head, groups)
  {
    if groups == [] {
      DigitsKept(head);
    } else {
      var front, last := groups[..|groups| - 1], groups[|groups| - 1];
      TypedDigits(head, front);
      GroupDropped(Typed(head, front), last, AllOf(head, front));
    }
  }

  lemma GroupDropped(before: string, g: Group, digits: string)
    requires IsGroup(g) && WithoutSeparators(before) == digits
    ensures WithoutSeparators(before + [g.sep] + g.digits) == digits + g.digits
  {
    WithoutConcat(before + [g.sep], g.digits);
    WithoutConcat(before, [g.sep]);
    WithoutOne(g.sep);
    DigitsKept(g.digits);
    assert digits + [] == digits;
  }

  lemma GroupedRead(text: string, digits: string, exponent: nat)
    requires Strip(text) == text && text != "" && text[0] != '-' && text[0] != '0'
    requires Grouped(text) && WithoutSeparators(text) == digits
    ensures ParseAt(text, exponent) == Value(digits, "", exponent)
  {
    Unsigned(text, digits, "", exponent);
  }

  /**
   * One to three digits not starting with 0, and then groups of three behind a comma or a point
   * each, are whole units: the separators are dropped.
   */
  lemma TypedGroups(text: string, head: string, groups: seq<Group>, exponent: nat, whole: nat)
    requires text == Typed(head, groups) && AllDigits(head) && 1 <= |head| <= 3 && head[0] != '0'
    requires AreGroups(groups) && groups != [] && ParseDigits(AllOf(head, groups)) == Some(whole)
    ensures var v := whole * Pow10(exponent);
      ParseAt(text, exponent) == if v <= MAX_SAFE then Some(v) else None
  {
    TypedIsGrouped(head, groups);
    TypedChars(head, groups);
    NothingIgnored(text);
    TypedDigits(head, groups);
    AllOfDigits(head, groups);
    GroupedRead(text, AllOf(head, groups), exponent);
    NoFraction(AllOf(head, groups), exponent, whole, "");
  }

  // ── signs, noise, refusals ──

  lemma StripMinus(text: string)
    ensures Strip(['-'] + text) == ['-'] + Strip(text)
  {
    StripConcat(['-'], text);
    NothingIgnored(['-']);
  }

  function Negated(answer: Option<int>): Option<int> {
    match answer
    case None => None
    case Some(v) => Some(-v)
  }

  lemma CleanedMinus(body: string, signed: string, exponent: nat)
    requires signed == ['-'] + body && body != "" && body[0] != '-'
    ensures ParseCleaned(signed, exponent) == Negated(ParseCleaned(body, exponent))
  {
    assert signed[1..] == body && signed[0] == '-';
  }

  lemma CleanedAlike(text: string, signed: string, body: string, cleaned: string, exponent: nat)
    requires Strip(text) == body && Strip(signed) == cleaned
    requires ParseCleaned(cleaned, exponent) == Negated(ParseCleaned(body, exponent))
    ensures ParseAt(signed, exponent) == Negated(ParseAt(text, exponent))
  {
  }

  lemma SignedStrip(text: string, signed: string) returns (body: string, cleaned: string)
    requires signed == ['-'] + text
    ensures Strip(text) == body && Strip(signed) == cleaned && cleaned == ['-'] + body
  {
    StripMinus(text);
    body, cleaned := Strip(text), Strip(signed);
  }

  /** A leading minus negates what follows it. */
  lemma MinusNegates(text: string, signed: string, exponent: nat)
    requires signed == ['-'] + text && Strip(text) != "" && Strip(text)[0] != '-'
    ensures ParseAt(signed, exponent) == Negated(ParseAt(text, exponent))
  {
    var body, cleaned := SignedStrip(text, signed);
    CleanedMinus(body, cleaned, exponent);
    CleanedAlike(text, signed, body, cleaned, exponent);
  }

  lemma MinusAlone(exponent: nat)
    ensures ParseAt("-", exponent) == None && ParseAt("", exponent) == None
  {
    NothingIgnored("-");
  }

  /** White space and apostrophes do not matter, wherever they stand. */
  lemma NoiseIgnored(a: string, c: char, b: string, exponent: nat)
    requires c in {' ', '\t', '\n', '\r', '\'', NBSP}
    ensures ParseAt(a + [c] + b, exponent) == ParseAt(a + b, exponent)
  {
    StripConcat(a + [c], b);
    StripConcat(a, [c]);
    StripConcat(a, b);
    StripOne(c);
    assert Strip(a) + [] == Strip(a);
  }

  lemma StripOne(c: char)
    requires Ignored(c)
    ensures Strip([c]) == []
  {
    assert [c][..0] == [];
  }

  predicate Strange(c: char) { !Ignored(c) && !IsDigit(c) && !Separator(c) && c != '-' }

  lemma {:induction false} GroupedChars(s: string)
    requires Grouped(s)
    ensures forall i :: 0 <= i < |s| ==> IsDigit(s[i]) || Separator(s[i])
  {
    var front := s[..|s| - 4];
    if !AllDigits(front) || |front| > 3 { GroupedChars(front); }
    forall i | 0 <= i < |s| ensures IsDigit(s[i]) || Separator(s[i]) {
      if i < |front| { assert s[i] == front[i]; } else if i > |front| { assert s[i] == s[|s| - 3..][i - (|s| - 3)]; }
    }
  }

  lemma {:induction false} SplitKeeps(s: string, sep: char, c: char)
    requires c in s && c != sep
    ensures exists i :: 0 <= i < |Split(s, sep)| && c in Split(s, sep)[i]
  {
    var rest := Split(s[1..], sep);
    if s[0] == c {
      assert c in Split(s, sep)[0];
    } else {
      assert s == [s[0]] + s[1..];
      SplitKeeps(s[1..], sep, c);
      var i :| 0 <= i < |rest| && c in rest[i];
      if s[0] == sep { assert Split(s, sep)[i + 1] == rest[i]; } else { assert c in Split(s, sep)[i]; }
    }
  }

  lemma StrangePieces(pieces: seq<string>, c: char)
    requires |pieces| >= 1 && !IsDigit(c) && exists i :: 0 <= i < |pieces| && c in pieces[i]
    ensures AroundPoint(pieces) == None
  {
    var i :| 0 <= i < |pieces| && c in pieces[i];
    if |pieces| <= 2 { assert !AllDigits(pieces[i]); }
  }

  lemma StrangeParts(body: string, c: char)
    requires c in body && !IsDigit(c) && !Separator(c)
    ensures Parts(body) == None
  {
    if Grouped(body) { GroupedChars(body); }
    var dotted := CommasToDots(body);
    var i :| 0 <= i < |body| && body[i] == c;
    assert dotted[i] == c && c in dotted;
    SplitKeeps(dotted, '.', c);
    StrangePieces(Split(dotted, '.'), c);
  }

  /** A character that is no digit, separator, minus or noise makes the text no amount. */
  lemma StrangeRefused(text: string, c: char, exponent: nat)
    requires c in text && Strange(c)
    ensures ParseAt(text, exponent) == None
  {
    StripKeepsStrange(text, c);
    var cleaned := Strip(text);
    var body := if cleaned[0] == '-' then cleaned[1..] else cleaned;
    if cleaned[0] == '-' { assert cleaned == ['-'] + cleaned[1..]; }
    StrangeParts(body, c);
  }

  lemma {:induction false} StripKeepsStrange(s: string, c: char)
    requires c in s && !Ignored(c)
    ensures c in Strip(s)
  {
    assert s == s[..|s| - 1] + [s[|s| - 1]];
    if s[|s| - 1] != c { StripKeepsStrange(s[..|s| - 1], c); }
  }

  lemma DottedOnce(w: string, sep: char, rest: string)
    requires AllDigits(w) && Separator(sep)
    ensures CommasToDots(w + [sep] + rest) == w + ['.'] + CommasToDots(rest)
  {
    CommasConcat(w + [sep], rest);
    CommasConcat(w, [sep]);
    NoPoint(w);
    NoCommas(w);
    assert CommasToDots([sep]) == ['.'];
  }

  lemma ThreePieces(dotted: string, w: string, f: string, rest: string)
    requires dotted == w + ['.'] + (f + ['.'] + rest) && AllDigits(w) && AllDigits(f)
    ensures |Split(dotted, '.')| > 2
  {
    NoPoint(w);
    NoPoint(f);
    SplitAfter(w, '.', f + ['.'] + rest);
    SplitAfter(f, '.', rest);
  }

  lemma NoParts(text: string, exponent: nat)
    requires Strip(text) == text && text != "" && text[0] != '-' && Parts(text) == None
    ensures ParseAt(text, exponent) == None
  {
  }

  /** Two separators that do not make grouped thousands make no amount. */
  lemma TwoPointsRefused(text: string, w: string, s1: char, f: string, s2: char, rest: string, exponent: nat)
    requires text == w + [s1] + (f + [s2] + rest) && AllDigits(w) && AllDigits(f) && Separator(s1) && Separator(s2)
    requires Strip(text) == text && text[0] != '-' && !(Grouped(text) && text[0] != '0')
    ensures ParseAt(text, exponent) == None
  {
    DottedOnce(w, s1, f + [s2] + rest);
    DottedOnce(f, s2, rest);
    ThreePieces(CommasToDots(text), w, f, CommasToDots(rest));
    NoParts(text, exponent);
  }

  lemma CommasConcat(s: string, t: string)
    ensures CommasToDots(s + t) == CommasToDots(s) + CommasToDots(t)
  {
  }

  lemma {:induction false} SplitAfter(w: string, sep: char, rest: string)
    requires sep !in w
    ensures Split(w + [sep] + rest, sep) == [w] + Split(rest, sep)
  {
    if w == [] {
      assert w + [sep] + rest == [sep] + rest;
    } else {
      assert (w + [sep] + rest)[1..] == w[1..] + [sep] + rest;
      SplitAfter(w[1..], sep, rest);
      assert [w[0]] + w[1..] == w;
    }
  }

  // ── how printed amounts look ──

  /** The p-th character from the right. */
  function FromRight(s: string, p: nat): char
    requires p < |s|
  {
    s[|s| - 1 - p]
  }

  lemma FromRightOf(s: string, t: string, p: nat)
    requires p < |s| + |t|
    ensures FromRight(s + t, p) == if p < |t| then FromRight(t, p) else FromRight(s, p - |t|)
  {
  }

  lemma {:induction false} GroupLength(digits: string)
    requires digits != ""
    ensures |GroupDigits(digits)| == |digits| + (|digits| - 1) / 3
  {
    if |digits| > 3 {
      GroupLength(digits[..|digits| - 3]);
      assert (|digits| - 4) / 3 == (|digits| - 1) / 3 - 1;
    }
  }

  lemma {:induction false} GroupPlace(digits: string, p: nat)
    requires digits != "" && p < |GroupDigits(digits)|
    ensures p - p / 4 <= |digits| && (p % 4 != 3 ==> p - p / 4 < |digits|)
    ensures FromRight(GroupDigits(digits), p)
      == if p % 4 == 3 then NBSP else FromRight(digits, p - p / 4)
  {
    if |digits| > 3 {
      var front, back := digits[..|digits| - 3], digits[|digits| - 3..];
      FromRightOf(GroupDigits(front) + [NBSP], back, p);
      assert digits == front + back;
      if p >= 4 {
        FromRightOf(GroupDigits(front), [NBSP], p - 3);
        GroupPlace(front, p - 4);
        NextQuarter(p);
        if p % 4 != 3 { FromRightOf(front, back, p - p / 4); }
      } else if p < 3 {
        FromRightOf(front, back, p);
      }
    }
  }

  lemma NextQuarter(p: nat)
    requires p >= 4
    ensures (p - 4) / 4 == p / 4 - 1 && (p - 4) % 4 == p % 4 && p - p / 4 >= 3
  {
  }

  /** Counted from the right, every fourth character is a separator and the others are the digits in order. */
  lemma GroupPlaces(digits: string, p: nat)
    requires digits != ""
    ensures |GroupDigits(digits)| == |digits| + (|digits| - 1) / 3
    ensures p < |GroupDigits(digits)| ==>
      && p - p / 4 <= |digits| && (p % 4 != 3 ==> p - p / 4 < |digits|)
      && FromRight(GroupDigits(digits), p) == if p % 4 == 3 then NBSP else FromRight(digits, p - p / 4)
  {
    GroupLength(digits);
    if p < |GroupDigits(digits)| { GroupPlace(digits, p); }
  }

  /** So'm are printed without decimals; the other currencies with two, behind a point. */
  lemma PrintedAs(amount: nat, code: Currency)
    ensures code == UZS ==> FormatAmount(amount, code) == GroupDigits(Decimal(amount))
    ensures code != UZS ==>
      FormatAmount(amount, code)
      == GroupDigits(Decimal(amount / 100)) + "." + (if amount % 100 < 10 then "0" else "") + Decimal(amount % 100)
  {
    PrintedAt(amount, code, Exponent(code));
  }

  lemma PrintedAt(amount: nat, code: Currency, exponent: nat)
    requires exponent == Exponent(code)
    ensures code == UZS ==> FormatAt(amount, exponent) == GroupDigits(Decimal(amount))
    ensures code != UZS ==>
      FormatAt(amount, exponent)
      == GroupDigits(Decimal(amount / 100)) + "." + (if amount % 100 < 10 then "0" else "") + Decimal(amount % 100)
  {
    assert Pow10(0) == 1 && Pow10(1) == 10 && Pow10(2) == 100;
    if code == UZS {
      assert GroupDigits(Decimal(amount)) + "" == GroupDigits(Decimal(amount));
    } else {
      DecimalLength(amount % 100, 1);
      DecimalLength(amount % 100, 2);
      assert PadStart(Decimal(amount % 100), 2) == (if amount % 100 < 10 then "0" else "") + Decimal(amount % 100);
    }
  }

  /** A negative amount is its size behind a typographic minus. */
  lemma NegativePrintedAs(amount: int, code: Currency)
    requires amount < 0
    ensures FormatAmount(amount, code) == ['\U{2212}'] + FormatAmount(-amount, code)
  {
  }
}
