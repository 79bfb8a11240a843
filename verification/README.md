# Robust polynomial regression harness — Dafny model

This project models the deterministic data-shaping core of a benchmark
harness for robust polynomial regression (`run.py`). The harness synthesizes
a noisy training set and a noiseless testing set from a random polynomial,
contaminates the middle ε-fraction of the training samples (ranked by `x`)
with a constant offset, writes the power-expanded training set to `in.txt`
for an external solver, reads the fitted coefficients back from `out.txt`,
and scores the predictions on the testing set by mean-squared error.

Numbers are exact `real`s, not IEEE doubles. The random draws, the standard
deviation of the clean targets, number formatting, float parsing and the
external solver are parameters of the model.

Modules, one per component:

- `Failures` (`failures.dfy`): `Option`, `Result` and the ways a run aborts.
  These are an empty training set, a token that `float` rejects, and a
  coefficient vector whose length does not fit the design matrix.
- `Powers` (`powers.dfy`): `power_expand`, numpy's `dot`, the reference
  polynomial `Σ w[k]·t^k`, the predictions `np.c_[1, X].dot(w)` and the sample
  synthesis of `generate_random_samples`.
- `Metrics` (`metrics.dfy`): `mean_squared_error`.
- `Ranking` (`ranking.dfy`): `np.argsort` as a permutation with a
  sortedness predicate, plus one insertion-sort implementation.
- `Contamination` (`contamination.dfy`): the rank window, the range
  offset and the contaminated targets.
- `Tokens` (`tokens.dfy`): Python's `str.split()` with no separator.
- `Exchange` (`exchange.dfy`): the `in.txt` writer and the `out.txt`
  reader, with their tokenisation round trips.
- `Experiment` (`experiment.dfy`): the configured constants and the whole
  run as one method.

## Model

| member | source | states |
|---|---|---|
| Powers.PowerExpand | run.py:22-30 | For power ≥ 1 the matrix has one row per input and `power` columns. Entry `[i][j]` is `x[i]^(j+1)`, so column 0 is `x` itself. The matrix equals the reference `PowerMatrix`. |
| Powers.DesignRowIsPoly | run.py:46 | The row `[1, t, …, t^(|w|-1)]` dotted with `w` is the polynomial `Σ_k w[k]·t^k`. |
| Powers.Predict | run.py:152-155 | The design matrix with a leading column of ones, dotted with `w`, has one entry per row of `X`. Entry `i` is the intercept `w[0]` plus the row dotted with `w[1..]`, for weights one longer than each row. |
| Powers.PredictOnPowersIsPoly | run.py:152-155 | Predicting from the power features of `x` evaluates the polynomial `w` at every `x[i]`. |
| Powers.Synthesize | run.py:44-48 | Each synthesized target is the true polynomial at `x[i]` plus noise `noise_level·spread·z[i]`. With noise level 0 the targets are exactly the polynomial values. |
| Powers.PowerMatrixExample | run.py:22-30 | Expanding `[2, 3]` to power 3 gives rows `[2, 4, 8]` and `[3, 9, 27]`. |
| Powers.PolyExample | run.py:46 | Weights `[2, -1, 0.5]` give the polynomial `2 - t + 0.5·t²`. |
| Metrics.SquaredResiduals | run.py:52 | The sum of squared residuals is never negative. |
| Metrics.SquaredResidualsZeroIff | run.py:51-52 | The residual sum is 0 exactly when the predictions equal the targets element-wise. |
| Metrics.MeanSquaredError | run.py:51-52 | MSE is defined exactly for non-empty inputs; an empty input is NaN. A defined MSE is ≥ 0, and it is 0 exactly on a perfect fit. |
| Ranking.ArgSort | run.py:126 | The result is a permutation of the indices of `x` that lists the values in ascending order. |
| Ranking.ArgSortTies | run.py:126 | With two equal values, `ArgSort` lists the later index first; `argsort` may order ties either way. |
| Ranking.PermutationCoversAll | run.py:126 | `n` distinct indices below `n` include every index below `n`. |
| Contamination.WindowBounds | run.py:126 | For ε in [0, 1]: `0 ≤ lo ≤ hi ≤ n`. ε = 0 gives an empty window and ε = 1 gives `[0, n)`. The size is within 1 of ε·n, and the window is centred, with `n-1 ≤ lo+hi ≤ n`. |
| Contamination.ContaminationWindow | run.py:126 | The window of any sorting permutation has `hi - lo` distinct indices, each in `[0, n)`. The index at rank `r` is in the window exactly when `lo ≤ r < hi`. Each windowed value is ≥ every value ranked below `lo` and ≤ every value ranked at or above `hi`. ε = 0 gives an empty window; ε = 1 covers every index. |
| Contamination.TargetRange | run.py:127 | `max(y) - min(y)` is ≥ 0. No two targets differ by more, and some two differ by exactly that much. |
| Contamination.Contaminate | run.py:125-127 | An empty training set fails as `max()` does. Otherwise every windowed target gains the range of the original targets and every other target is unchanged. ε = 0 changes nothing; ε = 1 shifts every target. |
| Tokens.Split | run.py:150 | Every piece of `str.split()` is non-empty and free of whitespace. |
| Tokens.SplitWhitespace | run.py:150 | Whitespace-only text splits into no tokens. |
| Tokens.SplitSkipsWhitespace | run.py:150 | Leading whitespace does not change the split. |
| Tokens.SplitToken | run.py:150 | A token followed by whitespace or the end of the text is split off whole. |
| Exchange.SplitInLine | run.py:131-135 | One `in.txt` line splits into `|row| + 1` tokens: the features in ascending power order, then the target. |
| Exchange.SplitInFile | run.py:131-135 | All of `in.txt` splits into the formatted features and targets, row after row. |
| Exchange.InFileRoundTrip | run.py:131-135 | Reading `in.txt` back as numbers recovers every feature and target in file order, whenever the parser reads back the text of each value written. |
| Exchange.ParseAll | run.py:150 | Parsing succeeds exactly when `float` accepts every token. It then returns the value of each token, in order. Otherwise it reports the first token `float` rejects. |
| Exchange.ReadNumbers | run.py:149-150 | Reading `out.txt` succeeds exactly when every whitespace-separated token parses. It then yields each token's value in order; otherwise it reports the first rejected token. |
| Exchange.SplitSpaced | run.py:150 | Tokens laid out with any non-empty runs of whitespace between them, and any trailing whitespace, split back into the same tokens. |
| Exchange.CoefficientsRoundTrip | run.py:149-150 | A coefficient vector written as tokens separated by any whitespace, with any leading and trailing whitespace, reads back exactly when the parser reads back the text of each coefficient. |
| Experiment.ContaminationSize | run.py:125 | `ceil(ε·n)` is the least integer ≥ ε·n. |
| Experiment.ConfiguredWindow | run.py:15-16 | With ε = 0.49 and n = 1024 the window is `[261, 762)`: 501 samples. The unused `contamination_size` is 502. |
| Experiment.TrainingSet | run.py:123-127 | Synthesis then contamination fails only on an empty training set. The window is the rank window of the sorted `x_training`. The offset is the range (max − min) of the synthesized targets. Targets outside the window keep their synthesized values; targets inside gain the offset. |
| Experiment.Predictions | run.py:152-155 | Predictions through power features of degree `fit_power` evaluate the fitted polynomial at each input. |
| Experiment.Score | run.py:128-155 | The testing targets are the noiseless true polynomial. Both prediction vectors evaluate the fitted polynomial, and the MSE is taken on the testing set; it is defined exactly when the testing set is non-empty. |
| Experiment.Run | run.py:122-155 | The run fails with `EmptyTargets` exactly when the training set is empty. Otherwise it fails with the reader's error when a token of `out.txt` does not parse. It fails with `ShapeMismatch(fit_power + 1, count)` when the count of read coefficients is wrong, and succeeds in every other case. On success `in.txt` is exactly the written layout of the power-expanded, contaminated training set, and the coefficients are what `out.txt` reads to. The predictions evaluate the fitted polynomial, the testing targets are the noiseless true polynomial, and the MSE is computed on the testing set. |

## Left out

- Randomness: the time-derived seed, `default_rng`, and the uniform and normal draws are left out (run.py:10, 33-35, 44-47, 122). The inputs `x` and the standard-normal draws `z` are parameters instead. `generate_random_weights` is left out entirely, because it only draws the true weights; they are a parameter, and the bounds are recorded as constants.
- Powers.Synthesize: `np.std` of the clean targets is a free parameter (`spread`). It is not tied to the targets, for example by `spread ≥ 0` and `spread² =` their population variance, so the contracts hold for every spread. The noise is `noise_level·spread·z[i]`, which is how numpy's `normal(0, σ)` scales standard draws.
- Ranking.ArgSort: numpy's default `argsort` is not stable. The contamination contracts therefore hold for every permutation satisfying `IsArgSort`, and `ArgSort` supplies one such permutation for the pipeline; it lists tied values latest index first (`Ranking.ArgSortTies`). With tied `x` values the source may pick a different window.
- Powers.PowerExpand: power 0 is outside the contract. `power_expand` then fails with an index error at run.py:27, and the harness sets `fit_power = 5` (run.py:19).
- Plotting (`export_figures`, run.py:55-119) is matplotlib rendering and file output. It is not modelled; the MSE it puts in the title is `Metrics.MeanSquaredError`.
- Solver launching (run.py:137-147) is process creation and waiting. The solvers run one after the other, and only the last one's `out.txt` is read. They are modelled together as one function from the text of `in.txt` to the text of `out.txt`.
- File I/O: the `open`/`write`/`read` calls are left out. The model produces and consumes the file contents as strings.
- Number formatting: float-to-text is an abstract formatter assumed to yield non-empty, whitespace-free tokens. Text-to-float is an abstract parser. The round-trip lemmas assume only that it reads back the text of each value actually written (`RoundTrips`); `Exchange.RoundTripsExample` shows a pair that meets this. `float` accepting text such as `nan` or `inf` is left to the parser.
- IEEE rounding: all arithmetic is exact. `int()` at run.py:126 is `floor`, because its arguments are non-negative for ε in [0, 1].
- ε outside [0, 1] is outside the contract; the harness sets `epsilon = 0.49` (run.py:15). Outside that range `int()` truncates a negative product toward zero and Python reads a negative slice start from the end of the array, which the model does not follow.
- Shape errors in `dot` with mismatched feature rows are outside `Predict`'s contract. The only mismatch the run can produce is a wrong coefficient count from `out.txt`, and `Experiment.Run` reports that one as `ShapeMismatch`.
- `operator.le` (run.py:1) is imported but unused.
