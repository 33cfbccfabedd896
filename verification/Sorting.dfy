/** The library sort the sources call: a stable sort by an integer key. */
module Sorting {
  ghost predicate SortedBy<T>(key: T -> int, s: seq<T>) {
    forall i, j :: 0 <= i < j < |s| ==> key(s[i]) <= key(s[j])
  }

  ghost predicate StrictlySortedBy<T>(key: T -> int, s: seq<T>) {
    forall i, j :: 0 <= i < j < |s| ==> key(s[i]) < key(s[j])
  }

  ghost predicate DistinctBy<T>(key: T -> int, s: seq<T>) {
    forall i, j :: 0 <= i < j < |s| ==> key(s[i]) != key(s[j])
  }

  function Insert<T>(key: T -> int, x: T, s: seq<T>): (r: seq<T>)
    ensures multiset(r) == multiset{x} + multiset(s)
  {
    if s == [] || key(x) <= key(s[0]) then
      [x] + s
    else
      assert s == [s[0]] + s[1..];
      [s[0]] + Insert(key, x, s[1..])
  }

  lemma InsertElements<T>(key: T -> int, x: T, s: seq<T>, y: T)
    ensures y in Insert(key, x, s) <==> y == x || y in s
  {
    assert y in Insert(key, x, s) <==> y in multiset(Insert(key, x, s));
  }

  lemma {:induction false} InsertSorted<T>(key: T -> int, x: T, s: seq<T>)
    requires SortedBy(key, s)
    ensures SortedBy(key, Insert(key, x, s))
  {
    if s != [] && key(x) > key(s[0]) {
      var rest := Insert(key, x, s[1..]);
      InsertSorted(key, x, s[1..]);
      forall i | 0 <= i < |rest| ensures key(s[0]) <= key(rest[i]) {
        InsertElements(key, x, s[1..], rest[i]);
      }
    }
  }

  function SortBy<T>(key: T -> int, s: seq<T>): (r: seq<T>)
    ensures SortedBy(key, r)
    ensures multiset(r) == multiset(s)
  {
    if s == [] then [] else
      assert s == [s[0]] + s[1..];
      InsertSorted(key, s[0], SortBy(key, s[1..]));
      Insert(key, s[0], SortBy(key, s[1..]))
  }

  lemma SortKeepsElements<T>(key: T -> int, s: seq<T>, x: T)
    ensures x in SortBy(key, s) <==> x in s
  {
    assert x in SortBy(key, s) <==> x in multiset(SortBy(key, s));
    assert x in s <==> x in multiset(s);
  }

  lemma SortKeepsLength<T>(key: T -> int, s: seq<T>)
    ensures |SortBy(key, s)| == |s|
  {
    assert |multiset(SortBy(key, s))| == |SortBy(key, s)|;
    assert |multiset(s)| == |s|;
  }

  /** Inserting a fresh key into a strictly sorted sequence keeps it strictly sorted. */
  lemma {:induction false} InsertKeepsStrict<T>(key: T -> int, x: T, s: seq<T>)
    requires StrictlySortedBy(key, s)
    requires forall i :: 0 <= i < |s| ==> key(s[i]) != key(x)
    ensures StrictlySortedBy(key, Insert(key, x, s))
  {
    if s != [] && key(x) > key(s[0]) {
      var rest := Insert(key, x, s[1..]);
      InsertKeepsStrict(key, x, s[1..]);
      forall i | 0 <= i < |rest| ensures key(s[0]) < key(rest[i]) {
        InsertElements(key, x, s[1..], rest[i]);
      }
    }
  }

  /** With distinct keys the sorted sequence is strictly increasing. */
  lemma {:induction false} SortDistinct<T>(key: T -> int, s: seq<T>)
    requires DistinctBy(key, s)
    ensures StrictlySortedBy(key, SortBy(key, s))
  {
    if s != [] {
      SortDistinct(key, s[1..]);
      var tail := SortBy(key, s[1..]);
      forall i | 0 <= i < |tail| ensures key(tail[i]) != key(s[0]) {
        SortKeepsElements(key, s[1..], tail[i]);
        assert tail[i] in s[1..];
      }
      InsertKeepsStrict(key, s[0], tail);
    }
  }
}
