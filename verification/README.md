# Stock price outliers — a Dafny model

`find_outliers.py` samples a window of consecutive rows from each stock-price
CSV file (`Ticker, Timestamp, Price`). It then reports the rows of that window
whose price lies more than two population standard deviations from the
window's mean. This project models the two pieces of logic in the script:

- **The window sampler** (`Sampler`). This is the tail of
  `get_n_random_consecutive_datapoints`, after the file has been read.
  - A series shorter than `n` fails.
  - Otherwise the sample is the `n` rows starting at a random position.
  - The random draw is the parameter `start`, which must be a value
    `randrange(0, L - n + 1)` can return.
- **The outlier detector** (`Detector`, with `Statistics` for the mean and
  the population variance). This is `get_outliers`.
  - A table with no rows, or with columns other than exactly
    `Ticker, Timestamp, Price`, is rejected.
  - Otherwise the detector keeps, in their original order, the rows with
    `|price - mean| > 2 * std`.
  - It adds the rounded mean to each kept row, plus the deviation from that
    rounded mean and the percentage by which the deviation exceeds `2 * std`.
  - `math.sqrt` is the parameter `std`, constrained by `IsStdDev` to be the
    non-negative root of the variance.
  - `round(x, 2)` is an arbitrary function parameter `round2`.
- **The theorems** (`OutlierTheorems`). They restate the detector without
  the square root:
  - a row is reported iff `(price - mean)^2 > 4 * variance`;
  - an equal-price or one-row table reports nothing;
  - Chebyshev's bound: fewer than a quarter of the rows are reported;
  - two worked ten-row examples, with a spike above and below the flat level.
- **The pipeline** (`Pipeline`). It connects the two pieces the way `main`
  does: every sample is accepted by the detector, and a 30-row sample yields
  at most seven outliers.

Prices are `real`. The `None` returns of the script are the `Failure` side of
`Results.Result`, and each failure carries its reason.

The script has no empty-series check in the sampler's logic: it only rejects a file
with zero columns (`fileDF.shape[1] == 0`), which is part of reading the file.
The model follows the code. An empty series fails only because it is shorter
than `n`, and with `n = 0` it yields an empty sample.

The docstring of `get_outliers` says an outlier lies "above" the mean. The
code compares the absolute deviation, so prices far below the mean are
reported too. The model follows the code, and `OutlierTheorems.LowSpikeReported`
shows such a row being reported.

## Model

| member | source | states |
|---|---|---|
| Sampler.SampleWindow | find_outliers.py:50-57 | Fails with `TooFewRows` exactly when the series has fewer than `n` rows. Otherwise the sample has exactly `n` rows, stays inside the series, and its row `i` is series row `start + i`. |
| Sampler.WindowReassembles | find_outliers.py:54-55 | For every legal start, the rows before the sample, the sample and the rows after it concatenate back to the series, so the sample is one contiguous slice. |
| Sampler.SamplesAreWindows | find_outliers.py:54-55 | A sequence is what some legal draw returns iff it has `n` rows and occurs row for row in the series at some offset that does not run past the end. |
| Detector.GetOutliers | find_outliers.py:84-105 | Succeeds iff the table has rows and exactly the columns `Ticker, Timestamp, Price`. No rows gives `NoRows`; otherwise a wrong schema gives `WrongColumns`. On success the reported rows are the kept rows, each carrying the rounded mean, its deviation from that rounded mean, and its percentage over the threshold. |
| Detector.IsOutlier | find_outliers.py:97 | The row test: the absolute deviation of the price from the mean is strictly greater than twice the standard deviation. It has no contract of its own; `OutlierTheorems.OutlierTestSquared` states its squared form. |
| Detector.OutlierPositions | find_outliers.py:97 | The boolean mask as positions: strictly increasing, within range, and position `i` is listed iff price `i` is more than `2 * std` from the mean, with a strict comparison. |
| Detector.KeepOutliers | find_outliers.py:97 | `data[mask]`: the kept rows are the input rows at the mask positions, unchanged and in input order, there are no more of them than input rows, and a row's position is in the mask iff its price is an outlier. |
| Detector.NoOutlierPositions | find_outliers.py:97 | A series with no outlier price has an empty mask. |
| Detector.NothingToKeep | find_outliers.py:97 | A table with no outlier price keeps no rows. |
| Detector.Annotate | find_outliers.py:98-104 | Row `k` of the output is kept row `k`. Every row carries the same rounded mean. Its deviation is the rounded difference between its price and that rounded mean, not the raw mean. Its percentage is the rounded excess of `abs(deviation) / (2 * std)` over 1, as a percentage. |
| Detector.Report | find_outliers.py:94-104 | For a non-empty table with a valid standard deviation, the annotated rows are the kept rows. A zero standard deviation keeps no rows, so every division by `2 * std` has a positive divisor. |
| Detector.NoOutliersWithoutSpread | find_outliers.py:95-97 | A zero standard deviation flags no price. |
| Statistics.Mean | find_outliers.py:95 | The mean of a non-empty price list is the value whose `n`-fold equals the left-to-right sum, and for equal prices it is that price. |
| Statistics.Variance | find_outliers.py:96 | The population variance (divisor `n`) is never negative, so `math.sqrt` always gets a valid argument, and `n` times it is the sum of squared deviations from the mean. |
| Statistics.SumOfConstant | find_outliers.py:95 | The sum of `k` copies of `c` is `k * c`. |
| Statistics.SumSqDevOfConstant | find_outliers.py:96 | The squared deviations of `k` copies of `c` from `m` sum to `k * (c - m)^2`. |
| Statistics.SumSqDevNonnegative | find_outliers.py:96 | A sum of squared deviations is never negative. |
| Statistics.SumSqDevZeroIff | find_outliers.py:96 | The squared deviations from `m` sum to zero iff every value equals `m`. |
| Statistics.VarianceZeroIff | find_outliers.py:96 | The population variance is zero iff all prices are equal, and a single price has zero variance. |
| OutlierTheorems.OutlierTestSquared | find_outliers.py:96-97 | With `std` the non-negative root of `v`: `abs(price - mean) > 2 * std` iff `(price - mean)^2 > 4 * v`. |
| OutlierTheorems.MaskIsSquaredTest | find_outliers.py:95-97 | Position `i` of a non-empty series is in the mask iff its squared deviation from the mean exceeds four times the population variance, whether the price lies above or below the mean. |
| OutlierTheorems.ReportsMaskedRowsInOrder | find_outliers.py:97-99 | For an accepted table, the reported rows are the input rows at the mask positions, in input order and unchanged. |
| OutlierTheorems.StdZeroIff | find_outliers.py:96 | The standard deviation is zero iff the variance is zero. |
| OutlierTheorems.ConstantPricesHaveNoOutliers | find_outliers.py:95-105 | An accepted table with all prices equal yields an empty result. |
| OutlierTheorems.SingleRowHasNoOutliers | find_outliers.py:95-105 | An accepted one-row table yields an empty result. |
| OutlierTheorems.OutlierMass | find_outliers.py:96-97 | The squared deviations from the mean sum to at least `4 * std^2` times the number of masked positions, and to strictly more when the mask is non-empty. |
| OutlierTheorems.MaskBound | find_outliers.py:95-97 | Fewer than a quarter of the positions of a non-empty series are masked (Chebyshev's inequality at two standard deviations). |
| OutlierTheorems.OutlierCountBound | find_outliers.py:84-105 | An accepted table yields fewer than a quarter of its row count in outliers. |
| OutlierTheorems.SpikeStatistics | find_outliers.py:94-97 | Nine prices at `b` and one at `b ± 90` have mean `b ± 9` and variance 729, and only the last position is masked at `std = 27`. |
| OutlierTheorems.SpikeKept | find_outliers.py:97 | In that series only the last row is kept. |
| OutlierTheorems.SpikeReported | find_outliers.py:94-105 | That table yields exactly one record: the last row with the rounded mean, its deviation from the rounded mean, and the rounded percentage computed from that deviation. |
| OutlierTheorems.HighSpikeReported | find_outliers.py:94-105 | Nine prices of 10 and one of 100 yield exactly the record (last row, 19, 81, 50). |
| OutlierTheorems.LowSpikeReported | find_outliers.py:94-105 | Nine prices of 100 and one of 10 yield exactly the record (last row, 91, -81, 50): a price below the mean is reported. |
| Pipeline.SampleAccepted | find_outliers.py:144-147 | A non-empty sample read with the detector's column labels is never rejected by the detector. |
| Pipeline.BatchSampleReportsAtMostSeven | find_outliers.py:133-147 | A 30-row batch sample is accepted and yields at most seven outliers. |

## Left out

- File handling (find_outliers.py:31-48) is left out because it is I/O and pandas parsing. It covers the `.csv` suffix check, the existence check, `pd.read_csv` with its error handling, and the zero-column check. The model starts from the rows already read.
- The random draw (find_outliers.py:54) is left out because it is a library random source. It is the parameter `start`, constrained to the values `randrange` can return.
- `main` (find_outliers.py:107-161) is left out because it is directory traversal, user input, clock-based folder names and CSV writing. `Pipeline` states only how it chains the two functions.
- Float semantics are left out because the model works over reals:
  - `math.sqrt` is replaced by any `std` with `std >= 0` and `std * std` equal to the variance;
  - `round(x, 2)` is an arbitrary function `round2`;
  - sums and quotients are exact.
- Detector.Annotate: does not state a numeric value for the percentage column, because it depends on the float rounding of an already rounded deviation. Only the worked examples pin it down, for a rounding that fixes the integers involved.
- Column labels and insert positions (`Mean of {n} sample`, `Price - Mean`, `% over threshold`) are presentation only. They are the fields of `OutlierRecord`.
- Sampler.SampleWindow: `n` is a natural number. A negative `n` from a Python caller is not modelled, and the script only ever passes 30.
- Beyond `Price`, the pandas column types are not modelled. `Ticker` and `Timestamp` are strings carried through unchanged.
