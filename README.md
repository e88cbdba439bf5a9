# Probabilistic forecast metrics of solarforecastarbiter, in Dafny

This project models the probabilistic forecast error metrics of
`solarforecastarbiter/metrics/probabilistic.py`:

- the Brier Score (BS) of probability forecasts for the event "observation
  at most the forecast value";
- the Brier Skill Score against a reference forecast;
- the binning of forecast probabilities to tenths or hundredths
  (`_unique_forecasts`);
- the three-component Brier decomposition BS = REL - RES + UNC and its three
  accessors `reliability`, `resolution` and `uncertainty`;
- the sharpness of prediction intervals.

Numbers are exact reals. `np.mean` of a non-empty array is `Numpy.Mean`.
`np.around` is `Numpy.Around`: scale by 10^d, round half to even, scale back.
`np.unique(f, return_counts=True)` is `Grouping.Distinct` with
`Grouping.BinCount`, and the boolean-mask selection `o[f == f_i]` is
`Grouping.Mask`.

`brier_decomposition` accumulates the reliability and resolution in a loop
over the distinct binned probabilities. It is the method
`Probabilistic.BrierDecomposition`, whose loop is the method
`Probabilistic.BinSums`. Both are proved against the functional
specification `Probabilistic.Decomposition`.

The documented identity BS = REL - RES + UNC is proved in two forms:

- it holds exactly for the Brier Score of the binned probabilities
  (`BrierIdentity.BinnedBrierScoreDecomposes`);
- it holds for `brier_score` itself whenever binning leaves the
  probabilities unchanged (`BrierIdentity.BrierScoreDecomposes`,
  `BrierIdentity.BrierScoreDecomposesOnGrid`).

`brier_score` does not bin, so with probabilities off the grid the two
sides differ by the binning error.

Module layout:

- `numpy.dfy`: sums, means and rounding.
- `grouping.dfy`: distinct values, counts, masks, and the totals over groups.
- `probabilistic.dfy`: the metrics.
- `brier_identity.dfy`: the decomposition identity.
- `calibration.dfy`: when reliability and resolution vanish.

## Model

| member | source | states |
|---|---|---|
| Numpy.Rint | solarforecastarbiter/metrics/probabilistic.py:137 | The result is within one half of y, and an exact half goes to the even integer. |
| Numpy.RintUnique | solarforecastarbiter/metrics/probabilistic.py:137 | Only one integer meets Rint's two postconditions, so they define round-half-to-even completely. |
| Numpy.Around | solarforecastarbiter/metrics/probabilistic.py:137 | np.around's result is on the 10^-d grid and within half a grid step of the input. |
| Numpy.AroundOnGrid | solarforecastarbiter/metrics/probabilistic.py:137 | A value already on the grid is returned unchanged. |
| Numpy.AroundIdempotent | solarforecastarbiter/metrics/probabilistic.py:137 | Rounding twice to d decimals is the same as rounding once. |
| Numpy.RintTie | solarforecastarbiter/metrics/probabilistic.py:137 | A value exactly halfway between two integers moves by exactly one half, to the even integer. |
| Numpy.AroundTieIsEven | solarforecastarbiter/metrics/probabilistic.py:137 | When x * 10^d is exactly halfway between two integers, np.around(x, d) * 10^d is the even one of the two, half a unit away. |
| Numpy.AroundTiesToEven | solarforecastarbiter/metrics/probabilistic.py:137 | 0.15 and 0.25 both round to 0.2, and 0.35 rounds to 0.4 (ties go to even). |
| Numpy.Mean | solarforecastarbiter/metrics/probabilistic.py:61 | np.mean of a non-empty array times its length gives back its sum. |
| Numpy.MeanWithin | solarforecastarbiter/metrics/probabilistic.py:61 | The mean of values in [lo, hi] lies in [lo, hi]. |
| Grouping.Distinct | solarforecastarbiter/metrics/probabilistic.py:196 | np.unique's values: no duplicates, every sample's value among them, and nothing else. |
| Grouping.BinCount | solarforecastarbiter/metrics/probabilistic.py:196 | np.unique's count N_i is at most n, and is positive exactly when the value occurs. |
| Grouping.Mask | solarforecastarbiter/metrics/probabilistic.py:197 | `o[f == f_i]` has exactly N_i entries. |
| Grouping.MaskWithin | solarforecastarbiter/metrics/probabilistic.py:197 | The selected entries `o[f == f_i]` stay within any bounds that all entries of o keep. |
| Grouping.GroupedSumTotal | solarforecastarbiter/metrics/probabilistic.py:196-199 | Summing a per-sample quantity bin by bin over distinct, covering bins gives its sum over all samples. |
| Grouping.BinCountsSumToLength | solarforecastarbiter/metrics/probabilistic.py:196 | The counts N_i of the distinct probabilities add up to n. |
| Probabilistic.Events | solarforecastarbiter/metrics/probabilistic.py:56 | o has n entries, each 0 or 1, and o_i = 1 exactly when obs_i <= fx_i. |
| Probabilistic.Probabilities | solarforecastarbiter/metrics/probabilistic.py:59 | f_i * 100 = fx_prob_i for every sample. |
| Probabilistic.BrierScore | solarforecastarbiter/metrics/probabilistic.py:56-61 | The Brier Score is never negative. |
| Probabilistic.BrierScoreBounded | solarforecastarbiter/metrics/probabilistic.py:43-46 | With every probability in [0, 100] percent, BS lies in [0, 1]. |
| Probabilistic.BrierScoreScenario | solarforecastarbiter/metrics/probabilistic.py:56-61 | Thresholds 5, probabilities 50% and observations 1, 1, 10, 10 give BS = 0.25. |
| Probabilistic.BrierSkillScore | solarforecastarbiter/metrics/probabilistic.py:94-96 | The skill is at most 1. |
| Probabilistic.SkillOfReferenceIsZero | solarforecastarbiter/metrics/probabilistic.py:94-96 | A forecast scored against itself has skill 0. |
| Probabilistic.SkillOfPerfectForecast | solarforecastarbiter/metrics/probabilistic.py:94-96 | A forecast with BS 0 has skill 1. |
| Probabilistic.SkillPositiveIffBetter | solarforecastarbiter/metrics/probabilistic.py:94-96 | The skill is positive if and only if the forecast's BS is below the reference's. |
| Probabilistic.Decimals | solarforecastarbiter/metrics/probabilistic.py:132-135 | Two decimals (hundredths) exactly when there are at least 1000 samples, one decimal (tenths) exactly when there are fewer. |
| Probabilistic.UniqueForecasts | solarforecastarbiter/metrics/probabilistic.py:132-137 | Same length. Each entry is np.around to 2 decimals when n >= 1000 and 1 decimal otherwise. Each lands on that grid, within half a step of the input. |
| Probabilistic.UniqueForecastsIdempotent | solarforecastarbiter/metrics/probabilistic.py:132-137 | Binning binned probabilities again changes nothing. |
| Probabilistic.UniqueForecastsOnGrid | solarforecastarbiter/metrics/probabilistic.py:137 | Probabilities already on the grid are returned unchanged. |
| Probabilistic.UniqueForecastsExample | solarforecastarbiter/metrics/probabilistic.py:126-128 | [0.1234, 0.156891, 0.10561] becomes [0.1, 0.2, 0.1]. |
| Probabilistic.BinRate | solarforecastarbiter/metrics/probabilistic.py:197 | The bin's event rate o_i times its count N_i is the number of events in the bin, and for event indicators o_i lies in [0, 1]. |
| Probabilistic.BinRateWithin | solarforecastarbiter/metrics/probabilistic.py:197 | The mean of a non-empty bin of event indicators lies in [0, 1]. |
| Probabilistic.WeightedSquare | solarforecastarbiter/metrics/probabilistic.py:198-199 | A bin's term N_i (a - b)^2, as added to rel with (f_i, o_i) and to res with (o_i, o_avg), is never negative, and for a non-empty bin it is 0 if and only if a = b. |
| Probabilistic.ReliabilitySum | solarforecastarbiter/metrics/probabilistic.py:198 | The running sum of N_i (f_i - o_i)^2 over the bins is never negative. |
| Probabilistic.ResolutionSum | solarforecastarbiter/metrics/probabilistic.py:199 | The running sum of N_i (o_i - o_avg)^2 over the bins is never negative. |
| Probabilistic.RateVariance | solarforecastarbiter/metrics/probabilistic.py:205 | For a base rate in [0, 1], base_rate (1 - base_rate) lies in [0, 1/4]. |
| Probabilistic.BaseRate | solarforecastarbiter/metrics/probabilistic.py:204 | The base rate, the mean of the event indicators, lies in [0, 1]. |
| Probabilistic.Decomposition | solarforecastarbiter/metrics/probabilistic.py:185-207 | REL and RES are non-negative, and UNC lies in [0, 1/4]. |
| Probabilistic.DecompositionUnfolded | solarforecastarbiter/metrics/probabilistic.py:194-205 | REL and RES are the bin sums divided by n = len(f), not by the number of bins. UNC is computed from np.mean(o). |
| Probabilistic.BrierDecomposition | solarforecastarbiter/metrics/probabilistic.py:185-207 | The returned (rel, res, unc) equals the specification Decomposition. |
| Probabilistic.BinSumsStep | solarforecastarbiter/metrics/probabilistic.py:196-199 | Bin k adds N_k (f_k - o_k)^2 to the reliability sum and N_k (o_k - o_avg)^2 to the resolution sum. |
| Probabilistic.BinSums | solarforecastarbiter/metrics/probabilistic.py:194-199 | After the loop over all distinct probabilities, rel and res are the full reliability and resolution sums. |
| Probabilistic.Reliability | solarforecastarbiter/metrics/probabilistic.py:242 | reliability is component 0 of the decomposition and is never negative. |
| Probabilistic.Resolution | solarforecastarbiter/metrics/probabilistic.py:279 | resolution is component 1 of the decomposition and is never negative. |
| Probabilistic.Uncertainty | solarforecastarbiter/metrics/probabilistic.py:312 | uncertainty is component 2 of the decomposition. It equals base_rate (1 - base_rate) and lies in [0, 1/4]. |
| Probabilistic.UncertaintyIgnoresProbabilities | solarforecastarbiter/metrics/probabilistic.py:204-205 | The uncertainty does not depend on the forecast probabilities. |
| Probabilistic.Widths | solarforecastarbiter/metrics/probabilistic.py:339 | The interval widths are fx_upper_i - fx_lower_i. |
| Probabilistic.Sharpness | solarforecastarbiter/metrics/probabilistic.py:339 | The mean interval width equals mean(fx_upper) - mean(fx_lower). |
| Probabilistic.SharpnessNonNegative | solarforecastarbiter/metrics/probabilistic.py:339 | Intervals with lower <= upper have non-negative sharpness. |
| Probabilistic.SharpnessExample | solarforecastarbiter/metrics/probabilistic.py:339 | Widths 3, 4 and 6 give sharpness 13/3. |
| BrierIdentity.BinSquareTotalStep | solarforecastarbiter/metrics/probabilistic.py:61 | One more sample with outcome 0 or 1 adds its squared error (v - o)^2 to N v^2 - 2 v S + S. |
| BrierIdentity.BinSquaredErrors | solarforecastarbiter/metrics/probabilistic.py:197 | Within bin v, the squared errors sum to N v^2 - 2 v S + S, where S is the number of events in the bin. |
| BrierIdentity.GroupFormAdditive | solarforecastarbiter/metrics/probabilistic.py:144 | The quadratic form behind the identity adds up over disjoint groups of samples. |
| BrierIdentity.BinTermsDifference | solarforecastarbiter/metrics/probabilistic.py:198-199 | One bin's reliability term minus its resolution term is a form in its count, event sum and squared-error sum. |
| BrierIdentity.BinSumsDifference | solarforecastarbiter/metrics/probabilistic.py:194-199 | Over the first k bins, the reliability sum minus the resolution sum is that same form of the grouped totals. |
| BrierIdentity.ScaledIdentity | solarforecastarbiter/metrics/probabilistic.py:200-205 | Dividing by n and adding base_rate (1 - base_rate) turns that difference into BS = REL - RES + UNC. |
| BrierIdentity.BinnedBrierScoreDecomposes | solarforecastarbiter/metrics/probabilistic.py:144 | The Brier Score of the binned probabilities equals REL - RES + UNC. |
| BrierIdentity.BrierScoreDecomposes | solarforecastarbiter/metrics/probabilistic.py:144 | When binning leaves the probabilities unchanged, brier_score = reliability - resolution + uncertainty. |
| BrierIdentity.BrierScoreDecomposesOnGrid | solarforecastarbiter/metrics/probabilistic.py:144 | The same holds when every probability is already on the binning grid. |
| Calibration.ReliabilitySumZero | solarforecastarbiter/metrics/probabilistic.py:194-198 | The reliability sum over the first k bins is 0 if and only if each of those bins is calibrated. |
| Calibration.ResolutionSumZero | solarforecastarbiter/metrics/probabilistic.py:194-199 | The resolution sum over the first k bins is 0 if and only if each of those bins has the base rate. |
| Calibration.ReliabilityZeroIffCalibrated | solarforecastarbiter/metrics/probabilistic.py:161-162 | Reliability is 0 if and only if every binned probability v has event rate v among the samples forecast at v (a perfectly reliable forecast). |
| Calibration.ResolutionZeroIffNoSeparation | solarforecastarbiter/metrics/probabilistic.py:164-165 | Resolution, where higher is better, is 0 if and only if every bin's event rate equals the overall base rate. |

## Left out

- Floating point is not modelled: there are no NaN or infinity values, and no rounding error in sums, means or divisions. The values that `np.around` sees are exact decimals. A binary float such as 0.15 may sit just below or above the tie, which can change the rounded value.
- Empty input is left out: every metric requires n >= 1. In the source, `brier_score`, `brier_skill_score` and `sharpness` take `np.mean` of an empty array, which gives NaN. `brier_decomposition`, `reliability`, `resolution` and `uncertainty` instead raise an exception. `np.nditer` at line 196 rejects zero-sized operands with a `ValueError`, and even without the loop, line 200 would divide by `len(f) == 0` and raise `ZeroDivisionError`. The model has neither the NaN results nor these error paths.
- A zero reference score is left out. `brier_skill_score` divides by bs_ref, so `BrierSkillScore` requires a non-zero reference score.
- Arrays of different lengths, numpy broadcasting and scalar arguments are left out. All sequences of one call have the same length.
- `np.unique` returns the distinct values sorted. `Grouping.Distinct` lists them in order of first appearance instead. The model does not prove that the order of the bins leaves the sums unchanged.
- `np.nditer` is only the iteration mechanism. The loop in `BinSums` visits the same (f_i, N_i) pairs directly.
- The docstring of `brier_decomposition` says the number of unique forecasts is capped at 100. On the hundredths grid, probabilities in [0, 1] can take 101 values (0.00 through 1.00). The model does not bound the number of bins.
- Probabilistic.BrierScoreBounded: requires every probability to be in [0, 100] percent. The source's docstring states the bound without that condition, and outside it the score can exceed 1.
- `solarforecastarbiter/reference_forecasts/models.py` and `solarforecastarbiter/io/reference_observations/tests/test_common.py` are not part of this model.
