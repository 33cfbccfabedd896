/** packages/shared/src/money.ts: percentages and proportional distribution. */
module Money {
  import opened Arithmetic
  import opened Sorting
  import opened Sums

  /** A percentage of an amount, rounded half up; the percentage may be fractional. */
  function ApplyPercentage(amount: int, percent: real): int {
    (amount as real * percent / 100.0 + 0.5).Floor
  }

  /** The result misses the exact percentage by at most half a unit, and exactly half goes up. */
  lemma PercentageRoundsHalfUp(amount: int, percent: real)
    ensures var exact := amount as real * percent / 100.0;
      exact - 0.5 < ApplyPercentage(amount, percent) as real <= exact + 0.5
  {
  }

  // ── largest-remainder apportionment ──

  /** The whole part of the exact share total·weight/sum, and the numerator of its fraction. */
  function Whole(total: int, weight: int, sum: int): int
    requires sum > 0
  {
    total * weight / sum
  }

  function Fraction(total: int, weight: int, sum: int): (f: int)
    requires sum > 0
    ensures 0 <= f < sum
  {
    total * weight % sum
  }

  lemma SplitShare(total: int, weight: int, sum: int)
    requires sum > 0
    ensures sum * Whole(total, weight, sum) + Fraction(total, weight, sum) == total * weight
  {
  }

  function Wholes(total: int, weights: seq<int>): seq<int>
    requires Sum(weights) > 0
  {
    seq(|weights|, i requires 0 <= i < |weights| => Whole(total, weights[i], Sum(weights)))
  }

  function Fractions(total: int, weights: seq<int>): seq<int>
    requires Sum(weights) > 0
  {
    seq(|weights|, i requires 0 <= i < |weights| => Fraction(total, weights[i], Sum(weights)))
  }

  /** The order in which buckets receive a leftover unit: larger fraction first, then position. */
  ghost predicate Before(fractions: seq<int>, i: nat, j: nat)
    requires i < |fractions| && j < |fractions|
  {
    fractions[i] > fractions[j] || (fractions[i] == fractions[j] && i < j)
  }

  /**
   * The parts add up to the total; each is the whole part of its exact share or one more; and a
   * bucket gets the extra unit only if every bucket before it in the order does.
   */
  ghost predicate Apportions(total: int, weights: seq<int>, parts: seq<int>)
    requires Sum(weights) > 0
  {
    && |parts| == |weights|
    && Sum(parts) == total
    && (forall i :: 0 <= i < |parts| ==> 0 <= parts[i] - Wholes(total, weights)[i] <= 1)
    && (forall i, j ::
         0 <= i < |parts| && 0 <= j < |parts|
         && parts[i] == Wholes(total, weights)[i] + 1 && parts[j] == Wholes(total, weights)[j]
         ==> Before(Fractions(total, weights), i, j))
  }

  lemma LeftoverAddsUp(total: int, weights: seq<int>)
    requires Sum(weights) > 0
    ensures Sum(weights) * (total - Sum(Wholes(total, weights))) == Sum(Fractions(total, weights))
  {
    forall i | 0 <= i < |weights|
      ensures Sum(weights) * Wholes(total, weights)[i] + Fractions(total, weights)[i] == total * weights[i]
    {
      SplitShare(total, weights[i], Sum(weights));
    }
    SumLinear(Sum(weights), Wholes(total, weights), Fractions(total, weights), total, weights);
    assert Sum(weights) * (total - Sum(Wholes(total, weights)))
        == Sum(weights) * total - Sum(weights) * Sum(Wholes(total, weights));
  }

  /** There are fewer leftover units than buckets. */
  lemma LeftoverBounds(total: int, weights: seq<int>)
    requires Sum(weights) > 0
    ensures 0 <= total - Sum(Wholes(total, weights)) < |weights|
  {
    LeftoverAddsUp(total, weights);
    FractionsInRange(total, weights);
    LeftoverBelow(Sum(weights), total - Sum(Wholes(total, weights)), Fractions(total, weights));
  }

  lemma FractionsInRange(total: int, weights: seq<int>)
    requires Sum(weights) > 0
    ensures |Fractions(total, weights)| == |weights| > 0
    ensures forall i :: 0 <= i < |Fractions(total, weights)| ==> 0 <= Fractions(total, weights)[i] < Sum(weights)
  {
  }

  lemma LeftoverBelow(s: int, left: int, f: seq<int>)
    requires s > 0 && f != [] && s * left == Sum(f)
    requires forall i :: 0 <= i < |f| ==> 0 <= f[i] < s
    ensures 0 <= left < |f|
  {
    SumNonNegative(f);
    FractionsBound(f, s);
    MulBounds(s, left, |f|);
  }

  lemma {:induction false} FractionsBound(f: seq<int>, s: int)
    requires forall i :: 0 <= i < |f| ==> f[i] < s
    ensures Sum(f) <= s * |f| && (f != [] ==> Sum(f) < s * |f|)
  {
    if f != [] {
      FractionsBound(f[..|f| - 1], s);
      assert s * |f| == s * (|f| - 1) + s;
    }
  }

  /** The comparator of the sort as one key: ascending keys are the order `Before`. */
  function OrderKey(fractions: seq<int>): int -> int {
    i => if 0 <= i < |fractions| then i - fractions[i] * |fractions| else 0
  }

  lemma OrderKeyIsBefore(fractions: seq<int>, i: nat, j: nat)
    requires i < |fractions| && j < |fractions|
    ensures OrderKey(fractions)(i) < OrderKey(fractions)(j) <==> Before(fractions, i, j)
    ensures OrderKey(fractions)(i) == OrderKey(fractions)(j) ==> i == j
  {
    if fractions[i] > fractions[j] {
      KeyOrder(|fractions|, fractions[i], fractions[j], i, j);
    } else if fractions[i] < fractions[j] {
      KeyOrder(|fractions|, fractions[j], fractions[i], j, i);
    }
  }

  lemma KeyOrder(n: nat, a: int, b: int, i: nat, j: nat)
    requires i < n && j < n && a > b
    ensures i - a * n < j - b * n
  {
    MulMono(n, b + 1, a);
    MulSucc(n, b);
  }

  method OrderByFraction(fractions: seq<int>) returns (order: seq<int>)
    ensures |order| == |fractions|
    ensures forall k :: 0 <= k < |order| ==> 0 <= order[k] < |fractions|
    ensures forall k, l :: 0 <= k < l < |order| ==> Before(fractions, order[k], order[l])
    ensures forall i :: 0 <= i < |fractions| ==> i in order
  {
    var indices := seq(|fractions|, i => i);
    var key := OrderKey(fractions);
    forall i, j | 0 <= i < j < |indices| ensures key(indices[i]) != key(indices[j]) {
      OrderKeyIsBefore(fractions, i, j);
    }
    SortDistinct(key, indices);
    SortKeepsLength(key, indices);
    order := SortBy(key, indices);
    forall k | 0 <= k < |order| ensures 0 <= order[k] < |fractions| {
      SortKeepsElements(key, indices, order[k]);
    }
    forall k, l | 0 <= k < l < |order| ensures Before(fractions, order[k], order[l]) {
      OrderKeyIsBefore(fractions, order[k], order[l]);
    }
    forall i | 0 <= i < |fractions| ensures i in order {
      assert indices[i] == i;
      SortKeepsElements(key, indices, i);
    }
  }

  method DistributeProportionally(total: int, weights: seq<int>) returns (result: seq<int>)
    ensures |result| == |weights|
    ensures Sum(weights) <= 0 || total == 0 ==> forall i :: 0 <= i < |result| ==> result[i] == 0
    ensures Sum(weights) > 0 && total != 0 ==> Apportions(total, weights, result)
  {
    if Sum(weights) <= 0 || total == 0 {
      return seq(|weights|, i => 0);
    }
    var floored := Wholes(total, weights);
    ghost var fractions := Fractions(total, weights);
    var remainder := total - Sum(floored);
    LeftoverBounds(total, weights);
    var order := OrderByFraction(Fractions(total, weights));
    result := floored;
    var k := 0;
    while k < |order| && remainder > 0
      invariant 0 <= k <= |order| && |result| == |weights|
      invariant remainder >= 0 && k + remainder == total - Sum(floored)
      invariant Sum(result) + remainder == total
      invariant forall i :: 0 <= i < |result| ==>
        result[i] == floored[i] + if i in order[..k] then 1 else 0
    {
      var entry := order[k];
      assert order[..k + 1] == order[..k] + [entry];
      assert entry !in order[..k];
      SumUpdate(result, entry, result[entry] + 1);
      result := result[entry := result[entry] + 1];
      remainder := remainder - 1;
      k := k + 1;
    }
    FirstInOrder(fractions, order, k);
  }

  /** The buckets bumped are a prefix of the order, so they come before all the others. */
  lemma FirstInOrder(fractions: seq<int>, order: seq<int>, k: nat)
    requires k <= |order|
    requires forall l :: 0 <= l < |order| ==> 0 <= order[l] < |fractions|
    requires forall l, m :: 0 <= l < m < |order| ==> Before(fractions, order[l], order[m])
    requires forall i :: 0 <= i < |fractions| ==> i in order
    ensures forall i, j ::
      0 <= i < |fractions| && 0 <= j < |fractions| && i in order[..k] && j !in order[..k]
      ==> Before(fractions, i, j)
  {
    forall i, j | 0 <= i < |fractions| && 0 <= j < |fractions| && i in order[..k] && j !in order[..k]
      ensures Before(fractions, i, j)
    {
      var l :| 0 <= l < k && order[l] == i;
      assert j in order;
      var m :| 0 <= m < |order| && order[m] == j;
      assert forall x :: 0 <= x < k ==> order[x] in order[..k];
    }
  }

  // ── what an apportionment guarantees ──

  function Bumps(total: int, weights: seq<int>, parts: seq<int>): seq<int>
    requires Sum(weights) > 0 && |parts| == |weights|
  {
    seq(|parts|, i requires 0 <= i < |parts| => parts[i] - Wholes(total, weights)[i])
  }

  lemma BumpsAddUp(total: int, weights: seq<int>, parts: seq<int>)
    requires Sum(weights) > 0 && Apportions(total, weights, parts)
    ensures Sum(Bumps(total, weights, parts)) == total - Sum(Wholes(total, weights))
  {
    SumLinear(1, Wholes(total, weights), Bumps(total, weights, parts), 1, parts);
  }

  /** A share that is already whole is never bumped. */
  lemma WholeSharesKept(total: int, weights: seq<int>, parts: seq<int>, i: nat)
    requires Sum(weights) > 0 && Apportions(total, weights, parts)
    requires i < |weights| && Fractions(total, weights)[i] == 0
    ensures parts[i] == Wholes(total, weights)[i] && Sum(weights) * parts[i] == total * weights[i]
  {
    var f, b := Fractions(total, weights), Bumps(total, weights, parts);
    BumpsAddUp(total, weights, parts);
    LeftoverAddsUp(total, weights);
    assert parts[i] == Wholes(total, weights)[i] + b[i];
    forall k | 0 <= k < |b| && b[i] == 1 && b[k] == 0 ensures f[k] == 0 {
      assert Before(f, i, k);
    }
    NoWholeBump(Sum(weights), f, b, i);
    SplitShare(total, weights[i], Sum(weights));
  }

  /** The fractions add up to one unit per bump, so a bump of a zero fraction cannot be paid for. */
  lemma NoWholeBump(s: int, f: seq<int>, b: seq<int>, i: nat)
    requires s > 0 && |f| == |b| && i < |b| && f[i] == 0 && s * Sum(b) == Sum(f)
    requires forall k :: 0 <= k < |b| ==> 0 <= f[k] < s && 0 <= b[k] <= 1
    requires b[i] == 1 ==> forall k :: 0 <= k < |b| && b[k] == 0 ==> f[k] == 0
    ensures b[i] == 0
  {
    SumScaled(s, b);
    if b[i] == 1 {
      SumMonotone(f, Scaled(s, b));
      assert false;
    }
  }

  /**
   * Every part is the floor or the ceiling of its exact share: it misses it by less than one
   * unit, and a bucket never gets more than its weight when the total does not exceed the weights.
   */
  lemma PartsNearShares(total: int, weights: seq<int>, parts: seq<int>, i: nat)
    requires total >= 0 && Sum(weights) > 0 && Apportions(total, weights, parts) && i < |weights|
    ensures Sum(weights) * (parts[i] - 1) < total * weights[i] < Sum(weights) * (parts[i] + 1)
    ensures weights[i] >= 0 ==> parts[i] >= 0
    ensures weights[i] >= 0 && total <= Sum(weights) ==> parts[i] <= weights[i]
  {
    SplitShare(total, weights[i], Sum(weights));
    if Fractions(total, weights)[i] == 0 { WholeSharesKept(total, weights, parts, i); }
    NearShare(total, weights[i], Sum(weights), Wholes(total, weights)[i], Fractions(total, weights)[i], parts[i]);
  }

  lemma NearShare(total: int, weight: int, s: int, w: int, f: int, part: int)
    requires total >= 0 && s > 0 && 0 <= f < s && s * w + f == total * weight
    requires part == w || (part == w + 1 && f > 0)
    ensures s * (part - 1) < total * weight < s * (part + 1)
    ensures weight >= 0 ==> part >= 0
    ensures weight >= 0 && total <= s ==> part <= weight
  {
    MulSucc(s, w);
    MulSucc(s, part);
    if weight >= 0 {
      MulMono(total, 0, weight);
      MulCancels(s, -1, part);
      if total <= s {
        MulMono(weight, total, s);
        MulSucc(s, weight);
        MulCancels(s, part - 1, weight);
      }
    }
  }

  /** A larger weight never gets a smaller part, and equal weights differ by at most one unit. */
  lemma PartsFollowWeights(total: int, weights: seq<int>, parts: seq<int>, i: nat, j: nat)
    requires total > 0 && Sum(weights) > 0 && Apportions(total, weights, parts)
    requires i < |weights| && j < |weights|
    ensures weights[i] > weights[j] ==> parts[i] >= parts[j]
    ensures weights[i] == weights[j] ==> -1 <= parts[i] - parts[j] <= 1
  {
    var w, f := Wholes(total, weights), Fractions(total, weights);
    SplitShare(total, weights[i], Sum(weights));
    SplitShare(total, weights[j], Sum(weights));
    if weights[i] > weights[j] {
      MulMono(total, weights[j] + 1, weights[i]);
      MulSucc(total, weights[j]);
      QuotientOrder(Sum(weights), w[i], f[i], w[j], f[j]);
      assert w[i] == w[j] && parts[j] > parts[i] ==> Before(f, j, i);
    }
  }

  /** The rule leaves no choice: two apportionments of the same total are equal. */
  lemma ApportionmentUnique(total: int, weights: seq<int>, p: seq<int>, q: seq<int>)
    requires Sum(weights) > 0 && Apportions(total, weights, p) && Apportions(total, weights, q)
    ensures p == q
  {
    if forall i :: 0 <= i < |p| ==> p[i] <= q[i] {
      SumMonotone(p, q);
    } else {
      var i :| 0 <= i < |p| && p[i] > q[i];
      forall j | 0 <= j < |p| ensures q[j] <= p[j] { OneWayDifference(total, weights, p, q, i, j); }
      SumMonotone(q, p);
    }
  }

  lemma OneWayDifference(total: int, weights: seq<int>, p: seq<int>, q: seq<int>, i: nat, j: nat)
    requires Sum(weights) > 0 && Apportions(total, weights, p) && Apportions(total, weights, q)
    requires i < |p| && j < |p| && p[i] > q[i]
    ensures q[j] <= p[j]
  {
    assert q[j] > p[j] ==> Before(Fractions(total, weights), i, j) && Before(Fractions(total, weights), j, i);
  }
}
