/**
 * `Array.prototype.sort` with a comparator, which JavaScript requires to be
 * stable: insertion sort by a key, where `before(a, b)` says that an element
 * with key `a` may stand in front of one with key `b`.  An element is placed
 * in front of the first element it may precede, so of two elements with
 * equal keys the earlier one stays in front.
 */
module Sorting {
  import opened Folds

  function Insert<T, K>(x: T, s: seq<T>, key: T -> K, before: (K, K) -> bool): (r: seq<T>)
    ensures multiset(r) == multiset(s) + multiset{x}
  {
    if s == [] || before(key(x), key(s[0])) then [x] + s
    else
      assert s == [s[0]] + s[1..];
      [s[0]] + Insert(x, s[1..], key, before)
  }

  function Sort<T, K>(xs: seq<T>, key: T -> K, before: (K, K) -> bool): (r: seq<T>)
    ensures multiset(r) == multiset(xs)
  {
    if xs == [] then []
    else
      assert xs == [xs[0]] + xs[1..];
      Insert(xs[0], Sort(xs[1..], key, before), key, before)
  }

  /** The comparator `(a, b) => b.count - a.count`: larger counts first. */
  predicate AtLeast(a: nat, b: nat)
  {
    a >= b
  }

  lemma AtLeastIsTotalPreorder()
    ensures TotalPreorder(AtLeast)
    ensures forall a :: AtLeast(a, a)
  {
  }

  ghost predicate SortedBy<T, K>(s: seq<T>, key: T -> K, before: (K, K) -> bool)
  {
    forall i, j :: 0 <= i < j < |s| ==> before(key(s[i]), key(s[j]))
  }

  ghost predicate TotalPreorder<K(!new)>(before: (K, K) -> bool)
  {
    && (forall a, b :: before(a, b) || before(b, a))
    && (forall a, b, c :: before(a, b) && before(b, c) ==> before(a, c))
  }

  lemma {:induction false} InsertSorted<T, K(!new)>(x: T, s: seq<T>, key: T -> K, before: (K, K) -> bool)
    requires TotalPreorder(before)
    requires SortedBy(s, key, before)
    ensures SortedBy(Insert(x, s, key, before), key, before)
  {
    if s != [] && !before(key(x), key(s[0])) {
      var rest := Insert(x, s[1..], key, before);
      InsertSorted(x, s[1..], key, before);
      var r := [s[0]] + rest;
      forall y | y in rest ensures before(key(s[0]), key(y)) {
        assert y in multiset(rest);
        if y != x {
          assert y in s[1..];
          var j :| 0 <= j < |s[1..]| && s[1..][j] == y;
          assert s[j + 1] == y;
        }
      }
      forall i, j | 0 <= i < j < |r| ensures before(key(r[i]), key(r[j])) {
        assert r[j] == rest[j - 1];
        if i > 0 { assert r[i] == rest[i - 1]; }
        else { assert rest[j - 1] in rest; }
      }
    }
  }

  /** The sorted sequence is ordered by `before`. */
  lemma {:induction false} SortSorted<T, K(!new)>(xs: seq<T>, key: T -> K, before: (K, K) -> bool)
    requires TotalPreorder(before)
    ensures SortedBy(Sort(xs, key, before), key, before)
  {
    if xs != [] {
      SortSorted(xs[1..], key, before);
      InsertSorted(xs[0], Sort(xs[1..], key, before), key, before);
    }
  }

  lemma {:induction false} InsertGroups<T, K(!new)>(x: T, s: seq<T>, key: T -> K, before: (K, K) -> bool, k: K)
    requires forall a :: before(a, a)
    ensures Group(Insert(x, s, key, before), key, k) == Group([x] + s, key, k)
  {
    if s != [] && !before(key(x), key(s[0])) {
      var s0, tail := s[0], s[1..];
      InsertGroups(x, tail, key, before, k);
      GroupAppend([s0], Insert(x, tail, key, before), key, k);
      GroupAppend([x], tail, key, k);
      GroupAppend([s0], tail, key, k);
      GroupAppend([x], s, key, k);
      assert s == [s0] + tail;
      GroupSingleton(x, key, k);
      GroupSingleton(s0, key, k);
      assert key(s0) != key(x);
    }
  }

  /**
   * The sort is stable: for every key, the elements with that key appear in
   * the output in the order they had in the input.
   */
  lemma {:induction false} SortStable<T, K(!new)>(xs: seq<T>, key: T -> K, before: (K, K) -> bool, k: K)
    requires forall a :: before(a, a)
    ensures Group(Sort(xs, key, before), key, k) == Group(xs, key, k)
  {
    if xs != [] {
      SortStable(xs[1..], key, before, k);
      InsertGroups(xs[0], Sort(xs[1..], key, before), key, before, k);
      GroupAppend([xs[0]], Sort(xs[1..], key, before), key, k);
      GroupAppend([xs[0]], xs[1..], key, k);
      assert xs == [xs[0]] + xs[1..];
    }
  }

  lemma {:induction false} InsertSum<T, K>(x: T, s: seq<T>, key: T -> K, before: (K, K) -> bool, f: T -> nat)
    ensures SumOf(Insert(x, s, key, before), f) == f(x) + SumOf(s, f)
  {
    if s == [] || before(key(x), key(s[0])) {
      SumOfCons(x, s, f);
    } else {
      InsertSum(x, s[1..], key, before, f);
      SumOfCons(s[0], Insert(x, s[1..], key, before), f);
      SumOfCons(s[0], s[1..], f);
      assert s == [s[0]] + s[1..];
    }
  }

  /** Sorting leaves every total unchanged. */
  lemma {:induction false} SortSum<T, K>(xs: seq<T>, key: T -> K, before: (K, K) -> bool, f: T -> nat)
    ensures SumOf(Sort(xs, key, before), f) == SumOf(xs, f)
  {
    if xs != [] {
      SortSum(xs[1..], key, before, f);
      InsertSum(xs[0], Sort(xs[1..], key, before), key, before, f);
      SumOfCons(xs[0], xs[1..], f);
      assert xs == [xs[0]] + xs[1..];
    }
  }

  /** Sorting neither adds nor drops an element. */
  lemma SortSameElements<T, K>(xs: seq<T>, key: T -> K, before: (K, K) -> bool)
    ensures forall x :: x in Sort(xs, key, before) <==> x in xs
  {
    var r := Sort(xs, key, before);
    forall x ensures x in r <==> x in xs {
      assert x in r <==> x in multiset(r);
      assert x in xs <==> x in multiset(xs);
    }
  }

  /** Every element of the input has a place in the sorted output. */
  lemma SortedPosition<T, K>(xs: seq<T>, key: T -> K, before: (K, K) -> bool, t: nat) returns (j: nat)
    requires t < |xs|
    ensures j < |Sort(xs, key, before)| && Sort(xs, key, before)[j] == xs[t]
  {
    SortSameElements(xs, key, before);
    assert xs[t] in Sort(xs, key, before);
    j :| j < |Sort(xs, key, before)| && Sort(xs, key, before)[j] == xs[t];
  }

  ghost predicate DistinctBy<T, P>(s: seq<T>, p: T -> P)
  {
    forall i, j :: 0 <= i < j < |s| ==> p(s[i]) != p(s[j])
  }

  /** Sorting keeps apart what was apart under any projection. */
  lemma {:induction false} SortDistinctBy<T, K, P>(xs: seq<T>, key: T -> K, before: (K, K) -> bool, p: T -> P)
    requires DistinctBy(xs, p)
    ensures DistinctBy(Sort(xs, key, before), p)
  {
    if xs != [] {
      var tail := xs[1..];
      assert DistinctBy(tail, p) by {
        forall i, j | 0 <= i < j < |tail| ensures p(tail[i]) != p(tail[j]) {
          assert tail[i] == xs[i + 1] && tail[j] == xs[j + 1];
        }
      }
      SortDistinctBy(tail, key, before, p);
      var sorted := Sort(tail, key, before);
      forall y | y in sorted ensures p(y) != p(xs[0]) {
        assert y in multiset(sorted);
        var j :| 0 <= j < |tail| && tail[j] == y;
        assert xs[j + 1] == y;
      }
      InsertDistinctBy(xs[0], sorted, key, before, p);
    }
  }

  lemma {:induction false} InsertDistinctBy<T, K, P>(x: T, s: seq<T>, key: T -> K, before: (K, K) -> bool, p: T -> P)
    requires DistinctBy(s, p)
    requires forall y :: y in s ==> p(y) != p(x)
    ensures DistinctBy(Insert(x, s, key, before), p)
  {
    var r := Insert(x, s, key, before);
    if s == [] || before(key(x), key(s[0])) {
      forall i, j | 0 <= i < j < |r| ensures p(r[i]) != p(r[j]) {
        assert r[j] == s[j - 1];
        if i > 0 { assert r[i] == s[i - 1]; }
      }
    } else {
      var tail := s[1..];
      assert DistinctBy(tail, p) by {
        forall i, j | 0 <= i < j < |tail| ensures p(tail[i]) != p(tail[j]) {
          assert tail[i] == s[i + 1] && tail[j] == s[j + 1];
        }
      }
      InsertDistinctBy(x, tail, key, before, p);
      var rest := Insert(x, tail, key, before);
      forall i, j | 0 <= i < j < |r| ensures p(r[i]) != p(r[j]) {
        assert r[j] == rest[j - 1];
        if i > 0 {
          assert r[i] == rest[i - 1];
        } else {
          var y := rest[j - 1];
          assert y in multiset(rest);
          if y != x {
            var t :| 0 <= t < |tail| && tail[t] == y;
            assert s[t + 1] == y;
          } else {
            assert s[0] in s;
          }
        }
      }
    }
  }
}
