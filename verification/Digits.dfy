/** Decimal digit strings, as JavaScript's String and Number convert them, and splitting. */
module Digits {
  import opened Arithmetic
  import opened Wrappers

  predicate IsDigit(c: char) { '0' <= c <= '9' }

  function DigitOf(c: char): nat
    requires IsDigit(c)
  {
    c as int - '0' as int
  }

  function DigitChar(d: nat): (c: char)
    requires d < 10
    ensures IsDigit(c) && DigitOf(c) == d
  {
    (48 + d) as char
  }

  /** The number a string of decimal digits denotes; the empty string denotes 0. */
  function ParseDigits(s: string): Option<nat> {
    if s == [] then Some(0)
    else if !IsDigit(s[|s| - 1]) then None
    else
      match ParseDigits(s[..|s| - 1])
      case None => None
      case Some(n) => Some(10 * n + DigitOf(s[|s| - 1]))
  }

  function Split(s: string, sep: char): (parts: seq<string>)
    ensures |parts| >= 1
  {
    if s == [] then [[]]
    else
      var rest := Split(s[1..], sep);
      if s[0] == sep then [[]] + rest else [[s[0]] + rest[0]] + rest[1..]
  }

  lemma ParseTwo(a: char, b: char)
    requires IsDigit(a) && IsDigit(b)
    ensures ParseDigits([a, b]) == Some(10 * DigitOf(a) + DigitOf(b))
  {
    assert [a, b][..1] == [a];
    assert [a][..0] == [];
    assert ParseDigits([a]) == Some(DigitOf(a));
  }

  lemma SplitWithout(s: string, sep: char)
    requires sep !in s
    ensures Split(s, sep) == [s]
  {
    if s != [] {
      SplitWithout(s[1..], sep);
      assert [s[0]] + s[1..] == s;
    }
  }

  lemma {:induction false} SplitOnce(w: string, sep: char, f: string)
    requires sep !in w && sep !in f
    ensures Split(w + [sep] + f, sep) == [w, f]
  {
    if w == [] {
      assert w + [sep] + f == [sep] + f;
      SplitWithout(f, sep);
    } else {
      assert (w + [sep] + f)[1..] == w[1..] + [sep] + f;
      SplitOnce(w[1..], sep, f);
      assert [w[0]] + w[1..] == w;
    }
  }

  predicate AllDigits(s: string) { forall i :: 0 <= i < |s| ==> IsDigit(s[i]) }

  lemma {:induction false} ParsesIffDigits(s: string)
    ensures ParseDigits(s).Some? <==> AllDigits(s)
  {
    if s != [] {
      ParsesIffDigits(s[..|s| - 1]);
    }
  }

  function Pow10(k: nat): (p: nat)
    ensures p >= 1
  {
    if k == 0 then 1 else 10 * Pow10(k - 1)
  }

  /** Appending digits shifts the number they follow. */
  lemma {:induction false} ParseConcat(s: string, t: string)
    requires AllDigits(s) && AllDigits(t)
    ensures ParseDigits(s).Some? && ParseDigits(t).Some? && ParseDigits(s + t).Some?
    ensures ParseDigits(s + t).value == ParseDigits(s).value * Pow10(|t|) + ParseDigits(t).value
  {
    ParsesIffDigits(s);
    ParsesIffDigits(t);
    ParsesIffDigits(s + t);
    if t == [] {
      assert s + t == s;
    } else {
      var u := t[..|t| - 1];
      assert (s + t)[..|s + t| - 1] == s + u;
      ParseConcat(s, u);
      MulShift(ParseDigits(s).value, Pow10(|u|), ParseDigits(u).value);
    }
  }

  lemma MulShift(a: int, p: int, b: int)
    ensures 10 * (a * p + b) == a * (10 * p) + 10 * b
  {
  }

  function Decimal(n: nat): (s: string)
    ensures |s| >= 1 && AllDigits(s)
  {
    if n < 10 then [DigitChar(n)] else Decimal(n / 10) + [DigitChar(n % 10)]
  }

  lemma {:induction false} ParseDecimal(n: nat)
    ensures ParseDigits(Decimal(n)) == Some(n)
  {
    if n < 10 {
      assert ParseDigits([]) == Some(0) && Decimal(n)[..0] == [];
    } else {
      ParseDecimal(n / 10);
      assert Decimal(n)[..|Decimal(n)| - 1] == Decimal(n / 10);
    }
  }

  /** The decimal of n has at most k digits exactly when n is below 10^k. */
  lemma {:induction false} DecimalLength(n: nat, k: nat)
    requires k >= 1
    ensures |Decimal(n)| <= k <==> n < Pow10(k)
    ensures n > 0 <==> Decimal(n)[0] != '0'
    decreases n
  {
    assert Pow10(k) == 10 * Pow10(k - 1);
    if n < 10 {
      assert DigitOf(DigitChar(n)) == n;
    } else if k == 1 {
      DecimalLength(n / 10, 1);
    } else {
      DecimalLength(n / 10, k - 1);
      assert Decimal(n)[0] == Decimal(n / 10)[0];
    }
  }

  function Zeros(k: nat): (s: string)
    ensures |s| == k && AllDigits(s)
  {
    if k == 0 then [] else Zeros(k - 1) + ['0']
  }

  lemma {:induction false} ParseZeros(k: nat)
    ensures ParseDigits(Zeros(k)) == Some(0)
  {
    if k > 0 {
      assert Zeros(k)[..k - 1] == Zeros(k - 1);
      ParseZeros(k - 1);
    }
  }
}
