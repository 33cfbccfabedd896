/** Sums of integer sequences. */
module Sums {
  function Sum(s: seq<int>): int {
    if s == [] then 0 else Sum(s[..|s| - 1]) + s[|s| - 1]
  }

  lemma SumAppend(s: seq<int>, x: int)
    ensures Sum(s + [x]) == Sum(s) + x
  {
    assert (s + [x])[..|s|] == s;
  }

  lemma {:induction false} SumConcat(s: seq<int>, t: seq<int>)
    ensures Sum(s + t) == Sum(s) + Sum(t)
  {
    if t == [] {
      assert s + t == s;
    } else {
      assert (s + t)[..|s + t| - 1] == s + t[..|t| - 1];
      SumConcat(s, t[..|t| - 1]);
    }
  }

  lemma {:induction false} SumUpdate(s: seq<int>, i: nat, x: int)
    requires i < |s|
    ensures Sum(s[i := x]) == Sum(s) - s[i] + x
  {
    var n := |s| - 1;
    if i == n {
      assert s[i := x][..n] == s[..n];
    } else {
      assert s[i := x][..n] == s[..n][i := x];
      SumUpdate(s[..n], i, x);
    }
  }

  /** Terms linearly related one by one have sums related the same way. */
  lemma {:induction false} SumLinear(p: int, a: seq<int>, b: seq<int>, q: int, c: seq<int>)
    requires |a| == |b| == |c|
    requires forall i :: 0 <= i < |a| ==> p * a[i] + b[i] == q * c[i]
    ensures p * Sum(a) + Sum(b) == q * Sum(c)
  {
    if a != [] {
      var n := |a| - 1;
      SumLinear(p, a[..n], b[..n], q, c[..n]);
      assert p * Sum(a) == p * Sum(a[..n]) + p * a[n];
      assert q * Sum(c) == q * Sum(c[..n]) + q * c[n];
    }
  }

  function Scaled(c: int, s: seq<int>): (r: seq<int>)
    ensures |r| == |s| && forall i :: 0 <= i < |s| ==> r[i] == c * s[i]
  {
    seq(|s|, i requires 0 <= i < |s| => c * s[i])
  }

  lemma {:induction false} SumScaled(c: int, s: seq<int>)
    ensures Sum(Scaled(c, s)) == c * Sum(s)
  {
    if s != [] {
      var n := |s| - 1;
      assert Scaled(c, s)[..n] == Scaled(c, s[..n]);
      SumScaled(c, s[..n]);
      assert c * Sum(s) == c * Sum(s[..n]) + c * s[n];
    }
  }

  lemma {:induction false} SumMonotone(a: seq<int>, b: seq<int>)
    requires |a| == |b| && forall i :: 0 <= i < |a| ==> a[i] <= b[i]
    ensures Sum(a) <= Sum(b)
    ensures Sum(a) == Sum(b) ==> a == b
  {
    if a != [] {
      var n := |a| - 1;
      SumMonotone(a[..n], b[..n]);
      assert a == a[..n] + [a[n]] && b == b[..n] + [b[n]];
    }
  }

  lemma {:induction false} SumNonNegative(s: seq<int>)
    requires forall i :: 0 <= i < |s| ==> s[i] >= 0
    ensures Sum(s) >= 0
    ensures forall i :: 0 <= i < |s| ==> s[i] <= Sum(s)
  {
    if s != [] {
      var n := |s| - 1;
      SumNonNegative(s[..n]);
      forall i | 0 <= i < |s| ensures s[i] <= Sum(s) {
        if i < n { assert s[..n][i] <= Sum(s[..n]); }
      }
    }
  }
}
