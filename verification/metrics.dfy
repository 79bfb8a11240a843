/** `mean_squared_error`: the mean of the squared residuals. */
module Metrics {
  import opened Failures

  /** Sum of squared residuals `Σ (predicted[i] - y[i])²`; never negative. */
  function SquaredResiduals(predicted: seq<real>, y: seq<real>): (s: real)
    requires |predicted| == |y|
    ensures s >= 0.0
  {
    if |predicted| == 0 then 0.0
    else
      var d := predicted[0] - y[0];
      d * d + SquaredResiduals(predicted[1..], y[1..])
  }

  lemma SquarePositive(d: real)
    requires d != 0.0
    ensures d * d > 0.0
  {
  }

  /** A perfect fit leaves no residual. */
  lemma {:induction false} PerfectFitHasNoResidual(predicted: seq<real>, y: seq<real>)
    requires |predicted| == |y|
    requires predicted == y
    ensures SquaredResiduals(predicted, y) == 0.0
  {
    if |predicted| != 0 {
      PerfectFitHasNoResidual(predicted[1..], y[1..]);
      assert predicted[0] - y[0] == 0.0;
    }
  }

  /** A vanishing residual sum forces a perfect fit. */
  lemma {:induction false} NoResidualIsPerfectFit(predicted: seq<real>, y: seq<real>)
    requires |predicted| == |y|
    requires SquaredResiduals(predicted, y) == 0.0
    ensures predicted == y
  {
    if |predicted| != 0 {
      var d := predicted[0] - y[0];
      if d != 0.0 {
        SquarePositive(d);
        calc {
          SquaredResiduals(predicted, y);
          == d * d + SquaredResiduals(predicted[1..], y[1..]);
          >= d * d;
          > 0.0;
        }
        assert false;
      }
      NoResidualIsPerfectFit(predicted[1..], y[1..]);
      assert predicted == [predicted[0]] + predicted[1..];
      assert y == [y[0]] + y[1..];
    }
  }

  /** The residual sum vanishes exactly on a perfect fit. */
  lemma SquaredResidualsZeroIff(predicted: seq<real>, y: seq<real>)
    requires |predicted| == |y|
    ensures SquaredResiduals(predicted, y) == 0.0 <==> predicted == y
  {
    if predicted == y {
      PerfectFitHasNoResidual(predicted, y);
    }
    if SquaredResiduals(predicted, y) == 0.0 {
      NoResidualIsPerfectFit(predicted, y);
    }
  }

  /** `mean_squared_error(predicted_y, y)`: the residual sum divided by the
      number of predictions; an empty pair divides zero by zero, which numpy
      turns into NaN, modelled as `None`. */
  function MeanSquaredError(predicted: seq<real>, y: seq<real>): (mse: Option<real>)
    requires |predicted| == |y|
    ensures mse.Some? <==> |predicted| > 0
    ensures mse.Some? ==> mse.value >= 0.0
    ensures mse.Some? ==> (mse.value == 0.0 <==> predicted == y)
  {
    if |predicted| == 0 then None
    else
      SquaredResidualsZeroIff(predicted, y);
      Some(SquaredResiduals(predicted, y) / (|predicted| as real))
  }
}
