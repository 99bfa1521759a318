/** LINQ's `OrderByDescending(key)`: a stable sort on an integer key.
    `OrderBy(key)` is the same sort on the negated key. */
module Ordering {

  /** No element is followed by one with a larger key. */
  ghost predicate SortedDesc<T>(s: seq<T>, key: T -> int) {
    forall i, j | 0 <= i < j < |s| :: key(s[i]) >= key(s[j])
  }

  /** Puts `x` in front of the first element whose key is not larger, so it
      precedes every element of equal key (stability). */
  function InsertDesc<T>(x: T, s: seq<T>, key: T -> int): (r: seq<T>)
    ensures multiset(r) == multiset(s) + multiset{x}
    ensures |r| == |s| + 1
    ensures r[0] == x || (s != [] && r[0] == s[0])
  {
    if s == [] || key(x) >= key(s[0]) then [x] + s
    else
      assert s == [s[0]] + s[1..];
      [s[0]] + InsertDesc(x, s[1..], key)
  }

  /** Inserting into a sorted sequence keeps it sorted. */
  lemma {:induction false} InsertDescSorted<T>(x: T, s: seq<T>, key: T -> int)
    requires SortedDesc(s, key)
    ensures SortedDesc(InsertDesc(x, s, key), key)
  {
    if s != [] && key(x) < key(s[0]) {
      var rest := InsertDesc(x, s[1..], key);
      InsertDescSorted(x, s[1..], key);
      assert key(rest[0]) <= key(s[0]);
      var r := [s[0]] + rest;
      assert forall j | 0 < j < |r| :: r[j] == rest[j - 1] && key(r[j]) <= key(rest[0]);
    }
  }

  /** The elements of `s` ordered by descending key, equal keys kept in
      their original order. */
  function SortDesc<T>(s: seq<T>, key: T -> int): (r: seq<T>)
    ensures multiset(r) == multiset(s)
    ensures |r| == |s|
    ensures SortedDesc(r, key)
  {
    if s == [] then []
    else
      assert s == [s[0]] + s[1..];
      InsertDescSorted(s[0], SortDesc(s[1..], key), key);
      InsertDesc(s[0], SortDesc(s[1..], key), key)
  }

  /** The head of a sorted sequence carries the largest key of all. */
  lemma SortDescHeadIsMax<T>(s: seq<T>, key: T -> int, x: T)
    requires x in s
    ensures |SortDesc(s, key)| > 0
    ensures key(SortDesc(s, key)[0]) >= key(x)
  {
    var r := SortDesc(s, key);
    assert x in multiset(r);
    var k :| 0 <= k < |r| && r[k] == x;
  }

  /** Sorting neither adds nor drops elements. */
  lemma SortDescMembers<T>(s: seq<T>, key: T -> int, x: T)
    ensures x in SortDesc(s, key) <==> x in s
  {
    assert x in SortDesc(s, key) <==> x in multiset(SortDesc(s, key));
    assert x in s <==> x in multiset(s);
  }

  /** Pairwise distinct elements occur once each. */
  lemma {:induction false} DistinctOccursOnce<T>(s: seq<T>, x: T)
    requires forall i, j | 0 <= i < j < |s| :: s[i] != s[j]
    ensures multiset(s)[x] == if x in s then 1 else 0
  {
    if s != [] {
      assert s == [s[0]] + s[1..];
      DistinctOccursOnce(s[1..], x);
      if x == s[0] {
        assert x !in s[1..] by {
          forall k | 0 <= k < |s[1..]| ensures s[1..][k] != x {
            assert s[1..][k] == s[k + 1];
          }
        }
      }
    }
  }

  /** Sorting a sequence without repetitions gives one without repetitions. */
  lemma SortDescDistinct<T>(s: seq<T>, key: T -> int)
    requires forall i, j | 0 <= i < j < |s| :: s[i] != s[j]
    ensures forall i, j | 0 <= i < j < |SortDesc(s, key)| :: SortDesc(s, key)[i] != SortDesc(s, key)[j]
  {
    var r := SortDesc(s, key);
    forall i, j | 0 <= i < j < |r| ensures r[i] != r[j] {
      if r[i] == r[j] {
        RepeatedCount(r, i, j);
        DistinctOccursOnce(s, r[i]);
      }
    }
  }

  /** An element found at two positions occurs at least twice. */
  lemma RepeatedCount<T>(r: seq<T>, i: nat, j: nat)
    requires i < j < |r| && r[i] == r[j]
    ensures multiset(r)[r[i]] >= 2
  {
    var x := r[i];
    assert r == r[..j] + r[j..];
    assert r[..j][i] == x;
    assert r[j..][0] == x;
    assert multiset(r[..j])[x] >= 1;
    assert multiset(r[j..])[x] >= 1;
  }
}
