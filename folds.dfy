/**
 * The reductions every aggregation view is built from: running sums,
 * grouping by a key (the members of one `Map` bucket, in arrival order),
 * the first-seen order of the keys (the insertion order of a JavaScript
 * `Map`), the set of keys (a JavaScript `Set`), and flattening the nested
 * breakdown arrays of the records.  Each is defined by peeling off the LAST
 * element, so that a loop over a prefix extends it one step at a time.
 */
module Folds {

  /** A prefix one longer is the prefix and the next element. */
  lemma PrefixSnoc<T>(xs: seq<T>, i: nat)
    requires i < |xs|
    ensures xs[..i + 1] == xs[..i] + [xs[i]]
  {
  }

  /** The same inside an inner loop, whose prefix follows what the outer loop has seen. */
  lemma InnerPrefixSnoc<T>(done: seq<T>, xs: seq<T>, j: nat)
    requires j < |xs|
    ensures (done + xs[..j]) + [xs[j]] == done + xs[..j + 1]
  {
    PrefixSnoc(xs, j);
  }

  /** Running total of `f` over `xs`. */
  function SumOf<T>(xs: seq<T>, f: T -> nat): nat
  {
    if xs == [] then 0 else SumOf(xs[..|xs| - 1], f) + f(xs[|xs| - 1])
  }

  lemma SumOfSnoc<T>(xs: seq<T>, x: T, f: T -> nat)
    ensures SumOf(xs + [x], f) == SumOf(xs, f) + f(x)
  {
    assert (xs + [x])[..|xs|] == xs;
  }

  lemma {:induction false} SumOfAppend<T>(xs: seq<T>, ys: seq<T>, f: T -> nat)
    ensures SumOf(xs + ys, f) == SumOf(xs, f) + SumOf(ys, f)
    decreases |ys|
  {
    if ys == [] {
      assert xs + ys == xs;
    } else {
      var init, last := ys[..|ys| - 1], ys[|ys| - 1];
      assert ys == init + [last];
      assert xs + ys == (xs + init) + [last];
      SumOfSnoc(xs + init, last, f);
      SumOfAppend(xs, init, f);
      SumOfSnoc(init, last, f);
    }
  }

  lemma SumOfCons<T>(x: T, xs: seq<T>, f: T -> nat)
    ensures SumOf([x] + xs, f) == f(x) + SumOf(xs, f)
  {
    SumOfAppend([x], xs, f);
    assert [x] == [] + [x];
    SumOfSnoc([], x, f);
  }

  /** The elements of `xs` whose key is `k`, in their order in `xs`. */
  function Group<T, K(==, !new)>(xs: seq<T>, key: T -> K, k: K): (g: seq<T>)
    ensures |g| <= |xs|
    ensures forall i :: 0 <= i < |g| ==> key(g[i]) == k && g[i] in xs
  {
    if xs == [] then []
    else
      var g := Group(xs[..|xs| - 1], key, k);
      if key(xs[|xs| - 1]) == k then g + [xs[|xs| - 1]] else g
  }

  lemma GroupSnoc<T, K(!new)>(xs: seq<T>, x: T, key: T -> K)
    ensures forall k :: Group(xs + [x], key, k) ==
                        (if key(x) == k then Group(xs, key, k) + [x] else Group(xs, key, k))
  {
    assert (xs + [x])[..|xs|] == xs;
  }

  lemma {:induction false} GroupAppend<T, K(!new)>(xs: seq<T>, ys: seq<T>, key: T -> K, k: K)
    ensures Group(xs + ys, key, k) == Group(xs, key, k) + Group(ys, key, k)
    decreases |ys|
  {
    if ys == [] {
      assert xs + ys == xs;
    } else {
      var init, last := ys[..|ys| - 1], ys[|ys| - 1];
      assert ys == init + [last];
      assert xs + ys == (xs + init) + [last];
      GroupSnoc(xs + init, last, key);
      GroupAppend(xs, init, key, k);
      GroupSnoc(init, last, key);
    }
  }

  lemma GroupSingleton<T, K(!new)>(x: T, key: T -> K, k: K)
    ensures Group([x], key, k) == if key(x) == k then [x] else []
  {
    assert [x][..0] == [];
  }

  /** A group is empty exactly when no element carries its key. */
  lemma {:induction false} GroupEmpty<T, K(!new)>(xs: seq<T>, key: T -> K, k: K)
    ensures Group(xs, key, k) == [] <==> forall i :: 0 <= i < |xs| ==> key(xs[i]) != k
  {
    if xs != [] {
      var init := xs[..|xs| - 1];
      GroupEmpty(init, key, k);
      assert forall i :: 0 <= i < |init| ==> init[i] == xs[i];
    }
  }

  /** Every element lies in the group of its own key. */
  lemma {:induction false} GroupMember<T, K(!new)>(xs: seq<T>, key: T -> K, i: nat)
    requires i < |xs|
    ensures xs[i] in Group(xs, key, key(xs[i]))
  {
    var init := xs[..|xs| - 1];
    if i < |init| {
      GroupMember(init, key, i);
      assert init[i] == xs[i];
    }
  }

  /** The head of a non-empty group is the first element of `xs` with that key. */
  lemma {:induction false} GroupHeadIsFirst<T, K(!new)>(xs: seq<T>, key: T -> K, k: K)
    requires Group(xs, key, k) != []
    ensures exists i :: 0 <= i < |xs| && xs[i] == Group(xs, key, k)[0] && key(xs[i]) == k
                        && forall j :: 0 <= j < i ==> key(xs[j]) != k
  {
    var init := xs[..|xs| - 1];
    assert forall i :: 0 <= i < |init| ==> init[i] == xs[i];
    if Group(init, key, k) != [] {
      GroupHeadIsFirst(init, key, k);
    } else {
      GroupEmpty(init, key, k);
      assert Group(xs, key, k) == [xs[|xs| - 1]];
    }
  }

  ghost predicate Distinct<K>(ks: seq<K>)
  {
    forall i, j :: 0 <= i < j < |ks| ==> ks[i] != ks[j]
  }

  /** The keys of `xs` in the order they are first met: a `Map`'s key order. */
  function KeyOrder<T, K(==, !new)>(xs: seq<T>, key: T -> K): (ks: seq<K>)
    ensures Distinct(ks)
    ensures forall k :: k in ks <==> Group(xs, key, k) != []
  {
    if xs == [] then []
    else
      var ks := KeyOrder(xs[..|xs| - 1], key);
      var k := key(xs[|xs| - 1]);
      if k in ks then ks else ks + [k]
  }

  lemma KeyOrderSnoc<T, K(!new)>(xs: seq<T>, x: T, key: T -> K)
    ensures KeyOrder(xs + [x], key) ==
      if key(x) in KeyOrder(xs, key) then KeyOrder(xs, key) else KeyOrder(xs, key) + [key(x)]
  {
    assert (xs + [x])[..|xs|] == xs;
  }

  /** The set of keys of `xs`: `new Set(xs.map(key))`. */
  function KeySet<T, K(==, !new)>(xs: seq<T>, key: T -> K): set<K>
  {
    set i | 0 <= i < |xs| :: key(xs[i])
  }

  lemma KeySetSnoc<T, K(!new)>(xs: seq<T>, x: T, key: T -> K)
    ensures KeySet(xs + [x], key) == KeySet(xs, key) + {key(x)}
  {
    var ys := xs + [x];
    forall k | k in KeySet(ys, key) ensures k in KeySet(xs, key) + {key(x)} {
      var i :| 0 <= i < |ys| && key(ys[i]) == k;
      if i < |xs| { assert ys[i] == xs[i]; }
    }
    forall k | k in KeySet(xs, key) ensures k in KeySet(ys, key) {
      var i :| 0 <= i < |xs| && key(xs[i]) == k;
      assert ys[i] == xs[i];
    }
    assert key(ys[|xs|]) == key(x);
  }

  /** A key occurs in the first-seen order exactly when some element carries it. */
  lemma KeyOrderCoversKeySet<T, K(!new)>(xs: seq<T>, key: T -> K)
    ensures forall k :: k in KeyOrder(xs, key) <==> k in KeySet(xs, key)
  {
    forall k ensures k in KeyOrder(xs, key) <==> k in KeySet(xs, key) {
      GroupEmpty(xs, key, k);
    }
  }

  /** The key of every element has a place in the first-seen order. */
  lemma KeyOrderIndex<T, K(!new)>(xs: seq<T>, key: T -> K, i: nat) returns (t: nat)
    requires i < |xs|
    ensures t < |KeyOrder(xs, key)| && KeyOrder(xs, key)[t] == key(xs[i])
  {
    GroupMember(xs, key, i);
    assert key(xs[i]) in KeyOrder(xs, key);
    t :| t < |KeyOrder(xs, key)| && KeyOrder(xs, key)[t] == key(xs[i]);
  }

  /**
   * The order is the order of first occurrence: when key `t1` comes before
   * key `t2`, every element carrying the later key is preceded by one
   * carrying the earlier key.
   */
  lemma {:induction false} KeyOrderFirstSeen<T, K(!new)>(xs: seq<T>, key: T -> K, t1: nat, t2: nat, i2: nat)
    requires t1 < t2 < |KeyOrder(xs, key)|
    requires i2 < |xs| && key(xs[i2]) == KeyOrder(xs, key)[t2]
    ensures exists i1 :: 0 <= i1 < i2 && key(xs[i1]) == KeyOrder(xs, key)[t1]
  {
    var init, x := xs[..|xs| - 1], xs[|xs| - 1];
    assert xs == init + [x];
    assert forall i :: 0 <= i < |init| ==> init[i] == xs[i];
    KeyOrderSnoc(init, x, key);
    var ks := KeyOrder(init, key);
    if key(x) in ks {
      var j := i2;
      if i2 == |init| {
        // the key of the last element was met before it
        GroupEmpty(init, key, ks[t2]);
        j :| 0 <= j < |init| && key(init[j]) == ks[t2];
      }
      KeyOrderFirstSeen(init, key, t1, t2, j);
      var i1 :| 0 <= i1 < j && key(init[i1]) == ks[t1];
      assert key(xs[i1]) == KeyOrder(xs, key)[t1];
    } else if t2 < |ks| {
      // a key met before the last element is not the last element's
      assert i2 < |init|;
      KeyOrderFirstSeen(init, key, t1, t2, i2);
      var i1 :| 0 <= i1 < i2 && key(init[i1]) == ks[t1];
      assert key(xs[i1]) == KeyOrder(xs, key)[t1];
    } else {
      // the last element brings a new key: every earlier key is met in `init`
      GroupEmpty(init, key, ks[t1]);
      var i1 :| 0 <= i1 < |init| && key(init[i1]) == ks[t1];
      if i2 < |init| {
        GroupEmpty(init, key, key(x));
        assert false;
      }
      assert key(xs[i1]) == KeyOrder(xs, key)[t1];
    }
  }

  /** A sequence without repetitions has as many elements as its set. */
  lemma {:induction false} DistinctCardinality<K>(ks: seq<K>)
    requires Distinct(ks)
    ensures |set k | k in ks| == |ks|
  {
    if ks != [] {
      var init, last := ks[..|ks| - 1], ks[|ks| - 1];
      assert Distinct(init);
      DistinctCardinality(init);
      assert last !in init;
      assert (set k | k in ks) == (set k | k in init) + {last};
    }
  }

  /** There are exactly as many keys in first-seen order as distinct keys. */
  lemma KeyOrderCardinality<T, K(!new)>(xs: seq<T>, key: T -> K)
    ensures |KeyOrder(xs, key)| == |KeySet(xs, key)|
  {
    var ks := KeyOrder(xs, key);
    KeyOrderCoversKeySet(xs, key);
    DistinctCardinality(ks);
    assert (set k | k in ks) == KeySet(xs, key);
  }

  /** A sequence has no more distinct keys than elements. */
  lemma {:induction false} KeySetBound<T, K(!new)>(xs: seq<T>, key: T -> K)
    ensures |KeySet(xs, key)| <= |xs|
  {
    if xs != [] {
      var init, last := xs[..|xs| - 1], xs[|xs| - 1];
      assert xs == init + [last];
      KeySetSnoc(init, last, key);
      KeySetBound(init, key);
    }
  }

  /**
   * The state of a `Map` of accumulators after a loop has seen `seen`:
   * its keys are those met so far, `order` is the order they were first met
   * in, and each accumulator is `tally` of its key's group.
   */
  ghost predicate Accumulated<T, K(!new), V>(seen: seq<T>, key: T -> K, tally: seq<T> --> V, acc: map<K, V>, order: seq<K>)
  {
    && order == KeyOrder(seen, key)
    && (forall k :: k in acc <==> k in order)
    && (forall k :: k in acc ==>
          tally.requires(Group(seen, key, k)) && acc[k] == tally(Group(seen, key, k)))
  }

  lemma AccumulatedEmpty<T, K(!new), V>(key: T -> K, tally: seq<T> --> V)
    ensures Accumulated([], key, tally, map[], [])
  {
  }

  /**
   * One loop step: the accumulator of the key of `x` becomes the tally of
   * its group extended by `x` (created, if the key is new, and the key
   * appended to the order); every other accumulator stays as it was.
   */
  lemma AccumulatedStep<T, K(!new), V>(seen: seq<T>, x: T, key: T -> K, tally: seq<T> --> V,
                                      acc: map<K, V>, order: seq<K>, v: V)
    requires Accumulated(seen, key, tally, acc, order)
    requires tally.requires(Group(seen, key, key(x)) + [x])
    requires v == tally(Group(seen, key, key(x)) + [x])
    ensures Accumulated(seen + [x], key, tally, acc[key(x) := v],
                        if key(x) in acc then order else order + [key(x)])
  {
    GroupSnoc(seen, x, key);
    KeyOrderSnoc(seen, x, key);
  }

  /** The nested arrays `part(x)` of every `x` in `xs`, one after the other. */
  function Flatten<A, B>(xs: seq<A>, part: A -> seq<B>): seq<B>
  {
    if xs == [] then [] else Flatten(xs[..|xs| - 1], part) + part(xs[|xs| - 1])
  }

  lemma FlattenSnoc<A, B>(xs: seq<A>, x: A, part: A -> seq<B>)
    ensures Flatten(xs + [x], part) == Flatten(xs, part) + part(x)
  {
    assert (xs + [x])[..|xs|] == xs;
  }

  /** The totals of the groups of the keys `ks`, added up. */
  function SumGroups<T, K(==, !new)>(ks: seq<K>, xs: seq<T>, key: T -> K, f: T -> nat): nat
  {
    if ks == [] then 0
    else SumGroups(ks[..|ks| - 1], xs, key, f) + SumOf(Group(xs, key, ks[|ks| - 1]), f)
  }

  lemma {:induction false} SumGroupsSnocItem<T, K(!new)>(ks: seq<K>, xs: seq<T>, x: T, key: T -> K, f: T -> nat)
    requires Distinct(ks)
    ensures SumGroups(ks, xs + [x], key, f) ==
            SumGroups(ks, xs, key, f) + (if key(x) in ks then f(x) else 0)
  {
    if ks != [] {
      var init, k := ks[..|ks| - 1], ks[|ks| - 1];
      assert Distinct(init);
      SumGroupsSnocItem(init, xs, x, key, f);
      GroupSnoc(xs, x, key);
      if key(x) == k {
        SumOfSnoc(Group(xs, key, k), x, f);
        assert key(x) !in init;
      }
      assert key(x) in ks <==> key(x) in init || key(x) == k;
    }
  }

  /** A key met for the first time opens a group of its own, holding just that element. */
  lemma NewKeyTotal<T, K(!new)>(init: seq<T>, x: T, key: T -> K, f: T -> nat)
    requires key(x) !in KeyOrder(init, key)
    ensures SumGroups(KeyOrder(init, key) + [key(x)], init + [x], key, f) ==
            SumGroups(KeyOrder(init, key), init + [x], key, f) + f(x)
  {
    var ks := KeyOrder(init, key);
    var ks' := ks + [key(x)];
    assert ks'[..|ks|] == ks;
    GroupSnoc(init, x, key);
    assert Group(init + [x], key, key(x)) == [x];
    SumOfSnoc([], x, f);
    assert [] + [x] == [x];
  }

  /** Grouping loses nothing: the group totals add up to the grand total. */
  lemma {:induction false} GroupTotalsAddUp<T, K(!new)>(xs: seq<T>, key: T -> K, f: T -> nat)
    ensures SumGroups(KeyOrder(xs, key), xs, key, f) == SumOf(xs, f)
  {
    if xs != [] {
      var init, x := xs[..|xs| - 1], xs[|xs| - 1];
      assert xs == init + [x];
      GroupTotalsAddUp(init, key, f);
      SumGroupsSnocItem(KeyOrder(init, key), init, x, key, f);
      KeyOrderSnoc(init, x, key);
      SumOfSnoc(init, x, f);
      if key(x) !in KeyOrder(init, key) {
        NewKeyTotal(init, x, key, f);
      }
    }
  }

  /**
   * Rows built one per key, each carrying its group's total, add up to
   * the total of the groups.
   */
  lemma {:induction false} SumOfRows<U, T, K(!new)>(rows: seq<U>, proj: U -> nat, ks: seq<K>, xs: seq<T>, key: T -> K, f: T -> nat)
    requires |rows| == |ks|
    requires forall j :: 0 <= j < |rows| ==> proj(rows[j]) == SumOf(Group(xs, key, ks[j]), f)
    ensures SumOf(rows, proj) == SumGroups(ks, xs, key, f)
  {
    if rows != [] {
      SumOfRows(rows[..|rows| - 1], proj, ks[..|ks| - 1], xs, key, f);
    }
  }
}
