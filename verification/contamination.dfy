/** Contamination injection: the middle ε-fraction of the training samples,
    ranked by `x`, get the range of the targets added to their `y`. */
module Contamination {
  import opened Failures
  import opened Ranking

  /** Ends `[lo, hi)` of the rank window: `int(n * (1 - ε) * 0.5)` and
      `int(n * (1 + ε) * 0.5)`. Both products are non-negative for ε in
      [0, 1], so Python's truncating `int` is the floor. The window is
      centred on the median rank and holds about ε·n samples. */
  function WindowBounds(n: nat, eps: real): (b: (nat, nat))
    requires 0.0 <= eps <= 1.0
    ensures b.0 <= b.1 <= n
    ensures eps == 0.0 ==> b.0 == b.1
    ensures eps == 1.0 ==> b.0 == 0 && b.1 == n
    ensures eps * (n as real) - 1.0 < (b.1 - b.0) as real < eps * (n as real) + 1.0
    ensures n - 1 <= b.0 + b.1 <= n
  {
    ScaledFractionBounds(n, eps);
    ((n as real * (1.0 - eps) * 0.5).Floor, (n as real * (1.0 + eps) * 0.5).Floor)
  }

  /** ε·n lies in [0, n], and the two window products split around n / 2. */
  lemma ScaledFractionBounds(n: nat, eps: real)
    requires 0.0 <= eps <= 1.0
    ensures 0.0 <= eps * (n as real) <= n as real
    ensures n as real * (1.0 - eps) * 0.5 == (n as real - eps * (n as real)) * 0.5
    ensures n as real * (1.0 + eps) * 0.5 == (n as real + eps * (n as real)) * 0.5
  {
  }

  /** `np.argsort(x_training)[lo:hi]` for any sorting permutation `order`:
      distinct training indices, each value at least every value ranked
      below the window and at most every value ranked above it. */
  function ContaminationWindow(order: seq<nat>, x: seq<real>, eps: real): (w: seq<nat>)
    requires IsArgSort(order, x)
    requires 0.0 <= eps <= 1.0
    ensures |w| == WindowBounds(|x|, eps).1 - WindowBounds(|x|, eps).0
    ensures IndicesBelow(w, |x|) && Distinct(w)
    ensures forall a, b :: 0 <= a < |w| && 0 <= b < WindowBounds(|x|, eps).0 ==> x[order[b]] <= x[w[a]]
    ensures forall a, b :: 0 <= a < |w| && WindowBounds(|x|, eps).1 <= b < |x| ==> x[w[a]] <= x[order[b]]
    ensures forall r :: 0 <= r < |x| ==>
              (order[r] in w <==> WindowBounds(|x|, eps).0 <= r < WindowBounds(|x|, eps).1)
    ensures eps == 0.0 ==> w == []
    ensures eps == 1.0 ==> forall k :: 0 <= k < |x| ==> k in w
  {
    var (lo, hi) := WindowBounds(|x|, eps);
    var w := order[lo..hi];
    assert forall a :: 0 <= a < |w| ==> w[a] == order[lo + a];
    SliceMembership(order, lo, hi);
    if eps == 1.0 then
      assert w == order;
      PermutationCoversAll(order, |x|);
      w
    else
      w
  }

  /** In a sequence without repeats, the entry at position `r` lies in the
      slice `[lo, hi)` exactly when `r` does. */
  lemma SliceMembership(order: seq<nat>, lo: nat, hi: nat)
    requires Distinct(order)
    requires lo <= hi <= |order|
    ensures forall r :: 0 <= r < |order| ==> (order[r] in order[lo..hi] <==> lo <= r < hi)
  {
    forall r | 0 <= r < |order|
      ensures order[r] in order[lo..hi] <==> lo <= r < hi
    {
      if lo <= r < hi {
        assert order[lo..hi][r - lo] == order[r];
      }
      if order[r] in order[lo..hi] {
        var a :| 0 <= a < hi - lo && order[lo..hi][a] == order[r];
        assert order[lo + a] == order[r];
      }
    }
  }

  /** The largest target. */
  function Max(y: seq<real>): (m: real)
    requires |y| > 0
    ensures forall k :: 0 <= k < |y| ==> y[k] <= m
    ensures m in y
  {
    if |y| == 1 then y[0]
    else
      var rest := Max(y[1..]);
      if y[0] >= rest then y[0] else rest
  }

  /** The smallest target. */
  function Min(y: seq<real>): (m: real)
    requires |y| > 0
    ensures forall k :: 0 <= k < |y| ==> m <= y[k]
    ensures m in y
  {
    if |y| == 1 then y[0]
    else
      var rest := Min(y[1..]);
      if y[0] <= rest then y[0] else rest
  }

  /** `r` is the range of `y`: no two targets differ by more than `r`, and
      some two differ by exactly `r`. */
  predicate IsRangeOf(r: real, y: seq<real>)
  {
    && (forall a, b :: 0 <= a < |y| && 0 <= b < |y| ==> y[a] - y[b] <= r)
    && (exists a, b :: 0 <= a < |y| && 0 <= b < |y| && y[a] - y[b] == r)
  }

  /** `y_training.max() - y_training.min()`: the range of a non-empty target
      sequence, never negative. */
  function TargetRange(y: seq<real>): (r: real)
    requires |y| > 0
    ensures IsRangeOf(r, y)
    ensures r >= 0.0
  {
    var hi := Max(y);
    var lo := Min(y);
    var a :| 0 <= a < |y| && y[a] == hi;
    var b :| 0 <= b < |y| && y[b] == lo;
    assert y[a] - y[b] == hi - lo;
    hi - lo
  }

  /** The training set after contamination: the window, the offset that was
      added and the new targets. */
  datatype Contaminated = Contaminated(window: seq<nat>, offset: real, y: seq<real>)

  /** Lines 125-127 of the harness for a given sorting permutation `order` of
      `x`: the offset is taken from the targets before any of them changes,
      then added once to every target in the window. An empty training set
      fails, as `max()` of an empty array does. */
  function Contaminate(x: seq<real>, y: seq<real>, eps: real, order: seq<nat>): (r: Result<Contaminated>)
    requires |x| == |y|
    requires 0.0 <= eps <= 1.0
    requires IsArgSort(order, x)
    ensures r.Err? <==> |y| == 0
    ensures r.Err? ==> r.error == EmptyTargets
    ensures r.Ok? ==> r.value.window == ContaminationWindow(order, x, eps)
    ensures r.Ok? ==> IsRangeOf(r.value.offset, y) && r.value.offset >= 0.0
    ensures r.Ok? ==> |r.value.y| == |y|
    ensures r.Ok? ==> forall k :: 0 <= k < |y| && k in r.value.window ==> r.value.y[k] == y[k] + r.value.offset
    ensures r.Ok? ==> forall k :: 0 <= k < |y| && k !in r.value.window ==> r.value.y[k] == y[k]
    ensures r.Ok? && eps == 0.0 ==> r.value.y == y
    ensures r.Ok? && eps == 1.0 ==> forall k :: 0 <= k < |y| ==> r.value.y[k] == y[k] + r.value.offset
  {
    if |y| == 0 then Err(EmptyTargets)
    else
      var window := ContaminationWindow(order, x, eps);
      var offset := TargetRange(y);
      var y' := seq(|y|, k requires 0 <= k < |y| => if k in window then y[k] + offset else y[k]);
      Ok(Contaminated(window, offset, y'))
  }
}
