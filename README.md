# Survival-curve cleaning and mortality, in Dafny

This project models the `mortality` class of `class_mortality.py`, the core of a
small survival-analysis tool. The class holds a survival data set: sample times
`t`, survival samples `s`, a downsampling factor `b` (keep one sample in `b`)
and a moving-average window `m`. From these it builds:

- a normalised survival curve (`scaling`);
- a downsampled curve (`new_bin`);
- a smoothed curve (`moving_average`, composed in `cleaning`);
- a mortality (hazard) curve, the central difference of `-ln` of the cleaned
  survival curve (`mortality_function`);
- an index lookup that turns a fit boundary time into an array index
  (`time_index`).

Samples are exact reals (`seq<real>`) instead of float64.

The model has two modules:

- `Series` (series.dfy) holds the reference definitions of every step as
  functions: `Scaled`, `Binned`, `WindowMeans`, `ForwardQuotients`,
  `CentralQuotients`, `Cleaned`, `MortalityOf` and `BracketIndex`. It also holds
  the lemmas about them.
- `MortalityAnalysis` (mortality.dfy) holds the class `Mortality`. Its four
  fields are `const`, because the source sets them once in `__init__` and never
  changes them. Each method is proved to return exactly the reference
  function of its step. `Cleaning` and `MortalityFunction` only compose calls;
  the other methods run the source's loops:
  - `scaling`, `derivative`, `derivative_central_difference_method` and
    `new_bin` build their result lists by appending in a loop;
  - `moving_average` fills a real array with prefix sums and then subtracts in
    place, from the last index down, so each read sees a prefix sum that has
    not yet been overwritten, as numpy's whole-slice assignment does;
  - `time_index` scans with an early exit.

Two behaviours of the code shape the model:

- `np.log` returns `-inf` or `nan` on a non-positive input and does not raise.
  The logarithm is therefore a total parameter `ln: real -> real` of the model,
  with no domain check.
- Inputs too short to differentiate or smooth give empty series, not errors:
  `x[:-1]` and `range(len(x)-1)` for a one-sample input, `x[1:-1]` and
  `range(len(x)-2)` for fewer than three samples, `x_moving[m-1:]` when
  `m > len(x)`. The model returns empty series in those cases too (`DropLast`,
  `Interior`, `WindowCount`).

## Model

| member | source | states |
|---|---|---|
| MortalityAnalysis.Mortality.constructor | class_mortality.py:6-20 | the four fields hold exactly the given times, survival samples, bin size and window |
| MortalityAnalysis.Mortality.Scaling | class_mortality.py:23-35 | the appended list equals `Scaled(s)`: same length as `s`, each sample divided by the first |
| Series.Scaled | class_mortality.py:32-35 | same length as `s`; element i times s[0] gives back s[i]; the first element is 1 |
| Series.ScaledIdempotent | class_mortality.py:32-35 | normalising an already normalised curve changes nothing |
| MortalityAnalysis.Mortality.Derivative | class_mortality.py:38-51 | returns `x[:-1]` and the list of forward quotients `(y[i+1]-y[i])/(x[i+1]-x[i])`, one per step |
| Series.DropLast | class_mortality.py:47 | `x[:-1]`: every sample but the last, in order; empty for an empty x |
| Series.ForwardQuotients | class_mortality.py:47-50 | one quotient per step, as many as `x[:-1]` has samples |
| Series.AccumulatedForwardQuotients | class_mortality.py:47-50 | round trip: following the forward quotients from y[0] along x rebuilds y exactly |
| MortalityAnalysis.Mortality.DerivativeCentralDifference | class_mortality.py:54-67 | returns `x[1:-1]` and the list of central quotients `(y[i+2]-y[i])/(x[i+2]-x[i])`, paired with x[i+1] |
| Series.Interior | class_mortality.py:63 | `x[1:-1]`: element i is x[i+1], len(x)-2 of them; empty for fewer than two samples |
| Series.CentralQuotients | class_mortality.py:63-66 | one quotient per interior sample, as many as `x[1:-1]` has samples |
| Series.CentralIsWeightedForward | class_mortality.py:63-66 | each central quotient is the step-weighted mean of the two forward quotients around the same sample |
| Series.QuotientsOfLine | class_mortality.py:47-66 | on samples of a straight line, every forward and every central quotient equals its slope |
| MortalityAnalysis.Mortality.NewBin | class_mortality.py:70-84 | returns `Binned(x, b)` and `Binned(y[:len(x)], b)`: the samples at 0, b, 2b, ..., `int(len(x)/b)` of them |
| Series.Binned | class_mortality.py:79-83 | the samples at indices 0, b, 2b, ...; its contract fixes their number at `len(x) // b` |
| Series.BinnedBlock | class_mortality.py:79-83 | sample j of a complete block of b samples is represented by kept sample j / b, which is x[j - j % b]; fewer than b samples at the end belong to no block |
| Series.BinnedByOne | class_mortality.py:79-83 | with b = 1 downsampling is the identity |
| Series.BinnedEmpty | class_mortality.py:81 | with b larger than the series nothing is kept |
| Series.BinnedIncreasing | class_mortality.py:79-83 | downsampling keeps a strictly increasing time axis strictly increasing |
| Series.BinnedScaledCommute | class_mortality.py:111-112 | downsampling keeps sample 0, so normalising before or after it gives the same curve |
| MortalityAnalysis.Mortality.MovingAverage | class_mortality.py:87-98 | the in-place cumulative-sum difference, sliced from m-1 and divided by m, equals `WindowMeans(x, m)` |
| Series.Sum | class_mortality.py:96 | x[lo] + ... + x[hi-1]; the prefix sums Sum(x, 0, j+1) are `np.cumsum(x)[j]` |
| Series.SumSplit | class_mortality.py:96-97 | a window sum is the difference of two prefix sums |
| Series.WindowCount | class_mortality.py:98 | the length of `x_moving[m-1:]`: n - m + 1 windows when n >= m, none otherwise |
| Series.WindowMeans | class_mortality.py:96-98 | max(0, n-m+1) elements; element i times m is x[i] + ... + x[i+m-1] |
| Series.WindowMeansOfOne | class_mortality.py:96-98 | with m = 1 the moving average returns x unchanged |
| Series.WindowMeansSlide | class_mortality.py:96-98 | consecutive means differ by (x[i+m] - x[i]) / m |
| Series.WindowMeansIncreasing | class_mortality.py:96-98 | smoothing keeps a strictly increasing time axis strictly increasing |
| MortalityAnalysis.Mortality.Cleaning | class_mortality.py:101-115 | scaling, new_bin and two moving averages return exactly `Cleaned(t, s, b, m)` |
| Series.Cleaned | class_mortality.py:111-115 | t_clean and s_clean have equal length `max(0, len(t)//b - m + 1)` |
| Series.CleanedIdentity | class_mortality.py:111-115 | with b = 1 and m = 1 cleaning returns t itself and the normalised survival curve |
| Series.CleanedIncreasing | class_mortality.py:111-115 | cleaning keeps a strictly increasing time axis strictly increasing |
| MortalityAnalysis.Mortality.MortalityFunction | class_mortality.py:118-132 | cleaning then central differences of -ln(s_clean) return exactly `MortalityOf(t, s, b, m, ln)` |
| Series.NegLog | class_mortality.py:129 | -ln is taken of every sample, none added or dropped |
| Series.MortalityOf | class_mortality.py:128-129 | the mortality times and values have equal length, two shorter than t_clean |
| Series.MortalityDefined | class_mortality.py:128-129 | on a strictly increasing time axis every central quotient of the mortality step has a non-zero denominator |
| Series.MortalityOfConstantHazard | class_mortality.py:128-129 | when -ln of the cleaned survival is linear in time with slope k, the mortality is k at every point |
| MortalityAnalysis.Mortality.TimeIndex | class_mortality.py:135-152 | the scan with early exit returns exactly `BracketIndex(t, t_real)` |
| Series.Max | class_mortality.py:145 | `max(t)` is at least every sample and is one of them |
| Series.Brackets | class_mortality.py:149 | the chained comparison `t[i] <= t_real <= t[i+1]` on an interval that exists |
| Series.FirstBracketFrom | class_mortality.py:147-151 | the scan returns the first interval from i that contains the value, or 0 when none does |
| Series.BracketIndex | class_mortality.py:144-152 | result in [0, len(t)-1]; len(t)-1 when t_real exceeds every sample; otherwise the smallest i with t[i] <= t_real <= t[i+1], or 0 when there is none |
| Series.BracketIndexNotAboveMax | class_mortality.py:145-151 | unless t_real exceeds every sample, the result is at most len(t)-2 |
| Series.BracketIndexAtOrBelowStart | class_mortality.py:144-152 | on a strictly increasing axis, any value up to t[0] gives 0 |
| Series.BracketIndexInRange | class_mortality.py:147-151 | on a strictly increasing axis, a value in [t[0], t[n-1]] gives an index at most n-2 whose interval contains it |
| Series.BracketIndexExactHit | class_mortality.py:147-151 | on a strictly increasing axis, the value t[j] with j > 0 gives j - 1 |
| Series.BracketIndexMonotone | class_mortality.py:144-152 | on a strictly increasing axis a later time never gives a smaller index, so fit-window bounds stay ordered |
| Series.BracketIndexExamples | class_mortality.py:144-152 | on [0, 1, 2, 3, 4]: 2.5 gives 2, 10 gives 4, -1 gives 0 |

## Left out

- `weibull`, `gompertz`, `weibull_mortality` and `gompertz_mortality`
  (class_mortality.py:155-200) are left out. They are `exp` and real powers over
  floats, which exact reals cannot evaluate.
- The logarithm in `mortality_function` is a parameter `ln`, so nothing about
  its values is modelled. Only shape, length and the central-difference
  relation are proved. `MortalityOfConstantHazard` takes linearity of `-ln`
  along the cleaned curve as a hypothesis.
- The commented-out lines that prepend an extrapolated point at t = 0
  (class_mortality.py:130-131) are dead code and are not modelled.
- Float64 rounding, `nan` and `inf` are not modelled. Where the source would
  divide by zero and produce `inf`/`nan`, the model requires a non-zero
  divisor:
  - `Scaling` and `Cleaning` need a non-zero first survival sample;
  - `Derivative` and `DerivativeCentralDifference` need adjacent or
    two-apart times to differ (`StepsNonZero`);
  - `MortalityFunction` needs the same of the cleaned time axis, which
    `MortalityDefined` derives from a strictly increasing `t`.
- Configurations with b < 1 or m < 1 are not modelled. With b = 0 or m = 0 the
  source raises or misbehaves.
- NewBin: requires `len(y) >= len(x)`. The source also accepts a shorter `y` as
  long as the indices 0, b, ... it reads exist in `y`.
- Derivative: requires `len(y) >= len(x)` even for `len(x) <= 1`, where the
  source reads nothing from `y`.
- DerivativeCentralDifference: requires `len(y) >= len(x)` even for
  `len(x) <= 2`, where the source reads nothing from `y`.
- `time_index` on an empty `t` (where `max` raises) is excluded by its
  precondition.
- numpy arrays versus Python lists are not distinguished: both are sequences.
  The copy that `np.cumsum` allocates is the method's local array.
- main_mortality.py is not part of this model. It loads a configuration file
  and a data file, calls a curve fitter (commented out) and plots.
