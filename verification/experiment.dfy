/** The harness's fixed configuration and its linear pipeline: synthesize,
    contaminate, expand, export, solve, read back, predict, score. */
module Experiment {
  import opened Failures
  import opened Powers
  import opened Metrics
  import opened Ranking
  import opened Contamination
  import opened Tokens
  import opened Exchange

  /** The fraction ε of training samples that is contaminated. */
  const Epsilon: real := 0.49
  const TrainingSize: nat := 1024
  const TestingSize: nat := 1000
  /** Degree of the generating polynomial (it has `TruePower + 1` weights). */
  const TruePower: nat := 5
  /** Degree of the fitted polynomial: the number of feature columns. */
  const FitPower: nat := 5
  /** Bounds of the uniform draw of the true weights. */
  const WeightLow: real := -10.0
  const WeightHigh: real := 10.0
  /** Noise is `TrainingNoiseLevel` standard deviations of the clean targets
      for training and absent for testing. */
  const TrainingNoiseLevel: real := 1.0
  const TestingNoiseLevel: real := 0.0

  /** `ceil(epsilon * training_size)`: computed by the harness but never used. */
  function ContaminationSize(n: nat, eps: real): (size: int)
    ensures size as real - 1.0 < eps * (n as real) <= size as real
  {
    -((-(eps * (n as real))).Floor)
  }

  /** With the configured constants the rank window is `[261, 762)`, 501
      samples, one fewer than the unused `contamination_size` of 502. */
  lemma ConfiguredWindow()
    ensures WindowBounds(TrainingSize, Epsilon) == (261, 762)
    ensures ContaminationSize(TrainingSize, Epsilon) == 502
    ensures WindowBounds(TrainingSize, Epsilon).1 - WindowBounds(TrainingSize, Epsilon).0
            != ContaminationSize(TrainingSize, Epsilon)
  {
    assert 1024.0 * (1.0 - 0.49) * 0.5 == 261.12;
    assert 1024.0 * (1.0 + 0.49) * 0.5 == 762.88;
    assert 0.49 * 1024.0 == 501.76;
  }

  /** Lines 123-127: the training targets synthesized with noise and then
      contaminated over the rank window of the sorting permutation `ArgSort`
      of `xTrain`. The targets outside the window are the noisy polynomial
      values; those inside carry the range of those values as an offset. */
  function TrainingSet(w: seq<real>, xTrain: seq<real>, zTrain: seq<real>, spreadTrain: real, eps: real)
    : (r: Result<Contaminated>)
    requires |w| >= 2
    requires |zTrain| == |xTrain|
    requires 0.0 <= eps <= 1.0
    ensures r.Err? <==> |xTrain| == 0
    ensures r.Ok? ==> |r.value.window| == WindowBounds(|xTrain|, eps).1 - WindowBounds(|xTrain|, eps).0
    ensures r.Ok? ==> IndicesBelow(r.value.window, |xTrain|) && Distinct(r.value.window)
    ensures r.Ok? ==> r.value.window == ContaminationWindow(ArgSort(xTrain), xTrain, eps)
    ensures r.Ok? ==> |r.value.y| == |xTrain| && r.value.offset >= 0.0
    ensures r.Ok? ==> var y := Synthesize(w, xTrain, TrainingNoiseLevel, spreadTrain, zTrain);
      && IsRangeOf(r.value.offset, y)
      && forall k :: 0 <= k < |xTrain| ==>
           r.value.y[k] == y[k] + (if k in r.value.window then r.value.offset else 0.0)
  {
    var y := Synthesize(w, xTrain, TrainingNoiseLevel, spreadTrain, zTrain);
    Contaminate(xTrain, y, eps, ArgSort(xTrain))
  }

  /** Lines 152 and 155: the fitted polynomial evaluated at every input,
      through the power features of degree `fitPower`. */
  function Predictions(x: seq<real>, coefficients: seq<real>, fitPower: nat): (yhat: seq<real>)
    requires fitPower >= 1 && |coefficients| == fitPower + 1
    ensures |yhat| == |x|
    ensures forall i :: 0 <= i < |x| ==> yhat[i] == Poly(coefficients, x[i])
  {
    PredictOnPowersIsPoly(x, coefficients);
    Predict(PowerMatrix(x, fitPower), coefficients)
  }

  /** Lines 128 and 152-155: the noiseless testing set, the predictions of
      the fitted coefficients on both sets, and the testing error. */
  method Score(w: seq<real>, xTrain: seq<real>, xTest: seq<real>, zTest: seq<real>, spreadTest: real,
               X: seq<seq<real>>, coefficients: seq<real>, fitPower: nat)
    returns (trainingPredictions: seq<real>, testingTargets: seq<real>, testingPredictions: seq<real>,
             mse: Option<real>)
    requires |w| >= 2 && |zTest| == |xTest|
    requires fitPower >= 1 && |coefficients| == fitPower + 1
    requires X == PowerMatrix(xTrain, fitPower)
    ensures trainingPredictions == Predictions(xTrain, coefficients, fitPower)
    ensures testingPredictions == Predictions(xTest, coefficients, fitPower)
    ensures |testingTargets| == |xTest|
    ensures forall i :: 0 <= i < |xTest| ==> testingTargets[i] == Poly(w, xTest[i])
    ensures mse == MeanSquaredError(testingPredictions, testingTargets)
    ensures mse.Some? <==> |xTest| > 0
  {
    testingTargets := Synthesize(w, xTest, TestingNoiseLevel, spreadTest, zTest);
    trainingPredictions := Predict(X, coefficients);
    var XTest := PowerExpand(xTest, fitPower);
    testingPredictions := Predict(XTest, coefficients);
    mse := MeanSquaredError(testingPredictions, testingTargets);
  }

  /** What one run produces. */
  datatype Outcome = Outcome(
    training: Contaminated,
    inText: string,
    coefficients: seq<real>,
    trainingPredictions: seq<real>,
    testingTargets: seq<real>,
    testingPredictions: seq<real>,
    testingMse: Option<real>)

  /** One run of the harness with its random draws supplied: `xTrain`/`xTest`
      are the uniform inputs, `zTrain`/`zTest` the standard-normal draws,
      `spreadTrain`/`spreadTest` the standard deviations of the clean targets,
      and `solver` the external program, from the text of `in.txt` to the
      text of `out.txt`. */
  method Run(w: seq<real>, xTrain: seq<real>, zTrain: seq<real>, spreadTrain: real,
             xTest: seq<real>, zTest: seq<real>, spreadTest: real,
             eps: real, fitPower: nat,
             fmt: real -> string, solver: string -> string, parse: string -> Option<real>)
    returns (r: Result<Outcome>)
    requires |w| >= 2
    requires |zTrain| == |xTrain| && |zTest| == |xTest|
    requires 0.0 <= eps <= 1.0
    requires fitPower >= 1
    requires TokenFormatter(fmt)
    ensures r == Err(EmptyTargets) <==> |xTrain| == 0
    ensures |xTrain| > 0 ==>
      var training := TrainingSet(w, xTrain, zTrain, spreadTrain, eps).value;
      var read := ReadNumbers(solver(InFile(PowerMatrix(xTrain, fitPower), training.y, fmt)), parse);
      && (read.Err? ==> r == Err(read.error))
      && (read.Ok? && |read.value| != fitPower + 1 ==> r == Err(ShapeMismatch(fitPower + 1, |read.value|)))
      && (read.Ok? && |read.value| == fitPower + 1 ==> r.Ok?)
    ensures r.Ok? ==> TrainingSet(w, xTrain, zTrain, spreadTrain, eps) == Ok(r.value.training)
    ensures r.Ok? ==> r.value.inText == InFile(PowerMatrix(xTrain, fitPower), r.value.training.y, fmt)
    ensures r.Ok? ==> Split(r.value.inText)
                      == Formatted(Records(PowerMatrix(xTrain, fitPower), r.value.training.y), fmt)
    ensures r.Ok? ==> ReadNumbers(solver(r.value.inText), parse) == Ok(r.value.coefficients)
    ensures r.Ok? ==> |r.value.coefficients| == fitPower + 1
    ensures r.Ok? ==> r.value.trainingPredictions == Predictions(xTrain, r.value.coefficients, fitPower)
    ensures r.Ok? ==> r.value.testingPredictions == Predictions(xTest, r.value.coefficients, fitPower)
    ensures r.Ok? ==> |r.value.testingTargets| == |xTest|
    ensures r.Ok? ==> forall i :: 0 <= i < |xTest| ==> r.value.testingTargets[i] == Poly(w, xTest[i])
    ensures r.Ok? ==> r.value.testingMse == MeanSquaredError(r.value.testingPredictions, r.value.testingTargets)
  {
    var training :- TrainingSet(w, xTrain, zTrain, spreadTrain, eps);
    var X := PowerExpand(xTrain, fitPower);
    var inText := InFile(X, training.y, fmt);
    SplitInFile(X, training.y, fmt);
    var coefficients :- ReadNumbers(solver(inText), parse);
    if |coefficients| != fitPower + 1 {
      return Err(ShapeMismatch(fitPower + 1, |coefficients|));
    }
    var trainingPredictions, yTest, testingPredictions, mse :=
      Score(w, xTrain, xTest, zTest, spreadTest, X, coefficients, fitPower);
    r := Ok(Outcome(training, inText, coefficients, trainingPredictions, yTest, testingPredictions, mse));
  }
}
