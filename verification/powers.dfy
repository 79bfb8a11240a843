/** Power-basis features and polynomial evaluation: `power_expand`, the
    noiseless targets of `generate_random_samples` and the predictions
    `np.c_[np.ones(n), X].dot(w)`. */
module Powers {

  /** t^k by repeated multiplication. */
  function Pow(t: real, k: nat): real
  {
    if k == 0 then 1.0 else t * Pow(t, k - 1)
  }

  /** Reference feature row `[t^1, t^2, ..., t^p]`. */
  function PowerRow(t: real, p: nat): (row: seq<real>)
    ensures |row| == p
  {
    seq(p, j requires 0 <= j < p => Pow(t, j + 1))
  }

  /** Reference feature matrix: one `PowerRow` per input value. */
  function PowerMatrix(x: seq<real>, p: nat): (m: seq<seq<real>>)
    ensures |m| == |x|
  {
    seq(|x|, i requires 0 <= i < |x| => PowerRow(x[i], p))
  }

  /** `power_expand`: column 0 is filled with x itself, then each further
      column c with x^(c+1), one column at a time. */
  method PowerExpand(x: seq<real>, power: nat) returns (m: seq<seq<real>>)
    requires power >= 1
    ensures |m| == |x|
    ensures forall i :: 0 <= i < |x| ==> |m[i]| == power && m[i][0] == x[i]
    ensures forall i, j :: 0 <= i < |x| && 0 <= j < power ==> m[i][j] == Pow(x[i], j + 1)
    ensures m == PowerMatrix(x, power)
  {
    m := seq(|x|, r requires 0 <= r < |x| => [x[r]]);
    var c := 1;
    while c < power
      invariant 1 <= c <= power
      invariant |m| == |x|
      invariant forall i :: 0 <= i < |x| ==> |m[i]| == c
      invariant forall i, j :: 0 <= i < |x| && 0 <= j < c ==> m[i][j] == Pow(x[i], j + 1)
    {
      var prev := m;
      m := seq(|x|, r requires 0 <= r < |x| => prev[r] + [Pow(x[r], c + 1)]);
      c := c + 1;
    }
    forall i | 0 <= i < |x|
      ensures m[i] == PowerRow(x[i], power)
    {
    }
  }

  /** `numpy.dot` of two vectors of equal length. */
  function Dot(a: seq<real>, b: seq<real>): real
    requires |a| == |b|
  {
    if |a| == 0 then 0.0 else a[0] * b[0] + Dot(a[1..], b[1..])
  }

  /** Reference polynomial value `Σ_{k < |w|} w[k]·t^k`, intercept first. */
  function Poly(w: seq<real>, t: real): real
  {
    if |w| == 0 then 0.0 else Poly(w[..|w| - 1], t) + w[|w| - 1] * Pow(t, |w| - 1)
  }

  /** Appending one pair to both vectors adds its product to the dot product. */
  lemma {:induction false} DotSnoc(a: seq<real>, b: seq<real>, u: real, v: real)
    requires |a| == |b|
    ensures Dot(a + [u], b + [v]) == Dot(a, b) + u * v
  {
    if |a| == 0 {
      assert (a + [u])[1..] == [];
    } else {
      assert (a + [u])[1..] == a[1..] + [u];
      assert (b + [v])[1..] == b[1..] + [v];
      DotSnoc(a[1..], b[1..], u, v);
    }
  }

  /** The design row `[1, t, ..., t^(|w|-1)]` dotted with `w` is the polynomial
      with coefficients `w`. */
  lemma {:induction false} DesignRowIsPoly(w: seq<real>, t: real)
    requires |w| >= 1
    ensures Dot([1.0] + PowerRow(t, |w| - 1), w) == Poly(w, t)
  {
    var p := |w| - 1;
    if p == 0 {
      assert [1.0] + PowerRow(t, 0) == [1.0];
      assert Poly(w[..0], t) == 0.0;
    } else {
      var w' := w[..p];
      assert [1.0] + PowerRow(t, p) == ([1.0] + PowerRow(t, p - 1)) + [Pow(t, p)];
      assert w == w' + [w[p]];
      DotSnoc([1.0] + PowerRow(t, p - 1), w', Pow(t, p), w[p]);
      DesignRowIsPoly(w', t);
    }
  }

  /** `np.c_[np.ones(n), X].dot(w)`: one prediction per row of `X`. */
  function Predict(X: seq<seq<real>>, w: seq<real>): (yhat: seq<real>)
    requires |w| >= 1
    requires forall i :: 0 <= i < |X| ==> |X[i]| == |w| - 1
    ensures |yhat| == |X|
    ensures forall i :: 0 <= i < |X| ==> yhat[i] == w[0] + Dot(X[i], w[1..])
  {
    seq(|X|, i requires 0 <= i < |X| => Dot([1.0] + X[i], w))
  }

  /** Predicting from the power features of `x` evaluates the polynomial `w`
      at every `x[i]`. */
  lemma {:induction false} PredictOnPowersIsPoly(x: seq<real>, w: seq<real>)
    requires |w| >= 1
    ensures forall i :: 0 <= i < |x| ==> Predict(PowerMatrix(x, |w| - 1), w)[i] == Poly(w, x[i])
  {
    forall i | 0 <= i < |x|
      ensures Predict(PowerMatrix(x, |w| - 1), w)[i] == Poly(w, x[i])
    {
      DesignRowIsPoly(w, x[i]);
    }
  }

  /** `generate_random_samples` once `x` and the standard-normal draws `z` are
      given: noiseless polynomial targets plus noise of scale
      `noiseLevel * spread`, where `spread` stands for `np.std` of the
      noiseless targets. */
  function Synthesize(w: seq<real>, x: seq<real>, noiseLevel: real, spread: real, z: seq<real>): (y: seq<real>)
    requires |w| >= 2
    requires |z| == |x|
    ensures |y| == |x|
    ensures forall i :: 0 <= i < |x| ==> y[i] == Poly(w, x[i]) + noiseLevel * spread * z[i]
    ensures noiseLevel == 0.0 ==> forall i :: 0 <= i < |x| ==> y[i] == Poly(w, x[i])
  {
    var clean := Predict(PowerMatrix(x, |w| - 1), w);
    PredictOnPowersIsPoly(x, w);
    seq(|x|, i requires 0 <= i < |x| => clean[i] + noiseLevel * spread * z[i])
  }

  /** Feature expansion of `[2, 3]` to power 3. */
  lemma PowerMatrixExample()
    ensures PowerMatrix([2.0, 3.0], 3) == [[2.0, 4.0, 8.0], [3.0, 9.0, 27.0]]
  {
    assert Pow(2.0, 1) == 2.0 && Pow(2.0, 2) == 4.0 && Pow(2.0, 3) == 8.0;
    assert Pow(3.0, 1) == 3.0 && Pow(3.0, 2) == 9.0 && Pow(3.0, 3) == 27.0;
    assert PowerRow(2.0, 3) == [2.0, 4.0, 8.0];
    assert PowerRow(3.0, 3) == [3.0, 9.0, 27.0];
  }

  /** Weights `[2, -1, 0.5]` define `2 - t + 0.5·t²`. */
  lemma PolyExample(t: real)
    ensures Poly([2.0, -1.0, 0.5], t) == 2.0 - t + 0.5 * t * t
  {
    assert [2.0, -1.0, 0.5][..2] == [2.0, -1.0];
    assert [2.0, -1.0][..1] == [2.0];
    assert [2.0][..0] == [];
    assert Pow(t, 1) == t;
    assert Pow(t, 2) == t * t;
    assert Poly([2.0], t) == 2.0;
    assert Poly([2.0, -1.0], t) == 2.0 - t;
  }
}
