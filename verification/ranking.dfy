/** `np.argsort`: a permutation of the indices of `x` that lists the values
    in ascending order. */
module Ranking {

  /** Every entry of `order` is an index into a sequence of length `n`. */
  predicate IndicesBelow(order: seq<nat>, n: nat)
  {
    forall k :: 0 <= k < |order| ==> order[k] < n
  }

  /** No index occurs twice in `order`. */
  predicate Distinct(order: seq<nat>)
  {
    forall a, b :: 0 <= a < b < |order| ==> order[a] != order[b]
  }

  /** `order` lists each of `0, ..., n - 1` exactly once. */
  predicate IsPermutation(order: seq<nat>, n: nat)
  {
    |order| == n && IndicesBelow(order, n) && Distinct(order)
  }

  /** Reading `x` through `order` gives a non-decreasing sequence. */
  predicate SortsAscending(order: seq<nat>, x: seq<real>)
    requires IndicesBelow(order, |x|)
  {
    forall a, b :: 0 <= a < b < |order| ==> x[order[a]] <= x[order[b]]
  }

  /** Any result numpy's `argsort` may return for `x`: with ties it is free to
      order equal values either way. */
  predicate IsArgSort(order: seq<nat>, x: seq<real>)
  {
    IsPermutation(order, |x|) && SortsAscending(order, x)
  }

  /** Inserts index `i` into `order` before the first index whose value is at
      least `x[i]`. */
  function Insert(order: seq<nat>, i: nat, x: seq<real>): (r: seq<nat>)
    requires i < |x| && IndicesBelow(order, |x|)
    ensures |r| == |order| + 1
    ensures IndicesBelow(r, |x|)
    ensures forall e :: e in r <==> e in order || e == i
  {
    if |order| == 0 || x[i] <= x[order[0]] then [i] + order
    else [order[0]] + Insert(order[1..], i, x)
  }

  /** Insertion keeps a sorted order sorted. */
  lemma {:induction false} InsertKeepsSorted(order: seq<nat>, i: nat, x: seq<real>)
    requires i < |x| && IndicesBelow(order, |x|)
    requires SortsAscending(order, x)
    ensures SortsAscending(Insert(order, i, x), x)
  {
    if |order| > 0 && x[order[0]] < x[i] {
      var rest := Insert(order[1..], i, x);
      InsertKeepsSorted(order[1..], i, x);
      forall k | 0 <= k < |rest|
        ensures x[order[0]] <= x[rest[k]]
      {
        var e := rest[k];
        assert e in rest;
        if e != i {
          assert e in order[1..];
          var j :| 0 <= j < |order[1..]| && order[1..][j] == e;
          assert order[j + 1] == e;
        }
      }
      var r := [order[0]] + rest;
      assert Insert(order, i, x) == r;
      forall a, b | 0 <= a < b < |r|
        ensures x[r[a]] <= x[r[b]]
      {
        if a > 0 {
          assert r[a] == rest[a - 1] && r[b] == rest[b - 1];
        } else {
          assert r[b] == rest[b - 1];
        }
      }
    }
  }

  /** Inserting an index below `n` among indices below `n` keeps them all
      below `n`. */
  lemma {:induction false} InsertKeepsBound(order: seq<nat>, i: nat, x: seq<real>, n: nat)
    requires i < |x| && IndicesBelow(order, |x|)
    requires i < n && IndicesBelow(order, n)
    ensures IndicesBelow(Insert(order, i, x), n)
  {
    if |order| > 0 && x[order[0]] < x[i] {
      InsertKeepsBound(order[1..], i, x, n);
    }
  }

  /** Inserting a fresh index keeps the indices distinct. */
  lemma {:induction false} InsertKeepsDistinct(order: seq<nat>, i: nat, x: seq<real>)
    requires i < |x| && IndicesBelow(order, |x|)
    requires Distinct(order) && i !in order
    ensures Distinct(Insert(order, i, x))
  {
    if |order| == 0 || x[i] <= x[order[0]] {
      var r := [i] + order;
      assert Insert(order, i, x) == r;
      forall a, b | 0 <= a < b < |r|
        ensures r[a] != r[b]
      {
        assert r[b] == order[b - 1];
        if a > 0 {
          assert r[a] == order[a - 1];
        } else {
          assert order[b - 1] in order;
        }
      }
    } else {
      var rest := Insert(order[1..], i, x);
      assert i !in order[1..];
      InsertKeepsDistinct(order[1..], i, x);
      assert order[0] !in order[1..];
      assert order[0] !in rest;
      var r := [order[0]] + rest;
      assert Insert(order, i, x) == r;
      forall a, b | 0 <= a < b < |r|
        ensures r[a] != r[b]
      {
        assert r[b] == rest[b - 1];
        if a > 0 {
          assert r[a] == rest[a - 1];
        } else {
          assert rest[b - 1] in rest;
        }
      }
    }
  }

  /** Insertion sort of the indices `0, ..., k - 1` by their values. */
  function ArgSortPrefix(x: seq<real>, k: nat): (order: seq<nat>)
    requires k <= |x|
    ensures IsPermutation(order, k)
    ensures IndicesBelow(order, |x|)
    ensures SortsAscending(order, x)
  {
    if k == 0 then []
    else
      var prev := ArgSortPrefix(x, k - 1);
      assert k - 1 !in prev;
      InsertKeepsSorted(prev, k - 1, x);
      InsertKeepsDistinct(prev, k - 1, x);
      InsertKeepsBound(prev, k - 1, x, k);
      Insert(prev, k - 1, x)
  }

  /** One permutation that sorts `x` ascending. `Insert` places a new index
      before equal values, so tied values come out latest index first. */
  function ArgSort(x: seq<real>): (order: seq<nat>)
    ensures IsArgSort(order, x)
  {
    ArgSortPrefix(x, |x|)
  }

  /** With two equal values the later index comes first. */
  lemma ArgSortTies()
    ensures ArgSort([1.0, 1.0]) == [1, 0]
  {
  }

  /** The set of indices listed in `order`. */
  function Elements(order: seq<nat>): set<nat>
  {
    set e | e in order
  }

  /** The indices `0, ..., n - 1` in increasing order. */
  function AllIndices(n: nat): (r: seq<nat>)
    ensures |r| == n
    ensures forall k :: 0 <= k < n ==> r[k] == k
  {
    seq(n, k requires 0 <= k < n => k)
  }

  /** A sequence of `n` distinct indices below `n` lists every index below
      `n`: a pigeonhole argument on the sets of their elements. */
  lemma PermutationCoversAll(order: seq<nat>, n: nat)
    requires IsPermutation(order, n)
    ensures forall k :: 0 <= k < n ==> k in order
  {
    var elems := Elements(order);
    var all := Elements(AllIndices(n));
    DistinctCardinality(order);
    DistinctCardinality(AllIndices(n));
    forall e | e in elems
      ensures e in all
    {
      var j :| 0 <= j < |order| && order[j] == e;
      assert AllIndices(n)[e] == e;
    }
    assert |all - elems| == |all| - |elems| == 0;
    assert all - elems == {};
    forall k | 0 <= k < n
      ensures k in order
    {
      assert AllIndices(n)[k] == k;
      assert k in all;
    }
  }

  /** Distinct entries make as many set elements as positions. */
  lemma {:induction false} DistinctCardinality(order: seq<nat>)
    requires Distinct(order)
    ensures |Elements(order)| == |order|
  {
    if |order| > 0 {
      var tail := order[1..];
      DistinctCardinality(tail);
      var head := order[0];
      assert head !in tail;
      var elems := Elements(order);
      var rest := Elements(tail);
      forall e | e in elems
        ensures e in rest || e == head
      {
        var j :| 0 <= j < |order| && order[j] == e;
        if j > 0 {
          assert tail[j - 1] == e;
        }
      }
      forall e | e in rest
        ensures e in elems
      {
        var j :| 0 <= j < |tail| && tail[j] == e;
        assert order[j + 1] == e;
      }
      assert elems == rest + {head};
      assert head !in rest;
      assert |rest| == |tail|;
      assert |rest + {head}| == |rest| + 1;
      assert |elems| == |tail| + 1;
    }
  }
}
