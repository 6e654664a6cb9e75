# Build-history aggregation and anomaly detection

This project models the logic of a small dashboard for CI build history. Build records carry a creation timestamp, a
duration and a summary status. `extractDataset` groups them by calendar day and lists the days in ascending order.
For each day it produces the number of `passed` builds, the number of `failed` builds and the total duration.
`findAbnormal` then gives each day an abnormality coefficient and flags the days whose coefficient is strictly above
the mean plus one population standard deviation of all the coefficients.

Modules:

- `DayKeys` (`day_keys.dfy`): the build record, the day key (the first ten characters of `created_at`), the string
  order used by the sort and its laws, a sorted insertion of distinct keys, and the proof that the string order of
  `YYYY-MM-DD` keys is the calendar order.
- `Aggregator` (`aggregator.dfy`): grouping, per-day tallies, the ordered days, and the `extractDataset` method,
  with the loop that pushes the per-day series.
- `AnomalyDetector` (`anomaly_detector.dfy`): the coefficient, the mean and the population variance, the threshold
  test, and the `findAbnormal` method, with the loop that collects the flagged indices.
- `FlagMonotonicity` (`flag_monotonicity.dfy`): the threshold test rewritten without division, in terms of the other
  days' sum and sum of squares, and the proof that more failed builds never unflag a flagged day.

The grouping, the key sort, the labels and the coefficients are pure expressions in the source, so they are functions
here. The two loops that push into arrays (`orderedDates.each` and the `_.reduce` over the coefficients) are methods
with loop invariants, each proved against those functions.

Coefficients are exact rationals (`real`). The square root is never taken. For d = c - mean, `c > mean + sd` holds
exactly when `d > 0 && d * d > variance`, because sd is non-negative and sd * sd equals the variance.
`ThresholdBySquares` proves this equivalence.

Two behaviours of the code shape the model:

- The zero-passed fallback (`0.2 * failed`, or 1 beyond five failures) applies when `passed` is 0, whatever the
  day's total (js/app.js:163). A day with no passed builds and some failed ones takes the fallback, not the ratio.
- Records are not validated. A missing `created_at` throws (js/app.js:119), and the durations of a day are summed
  with `_.sum` (js/app.js:137). The model takes every record as given, with an integer duration.

## Model

| member | source | states |
|---|---|---|
| `DayKeys.DayKey` | js/app.js:118-121 | a record's day key is `created_at.slice(0, 10)`: the first ten characters of the timestamp, or all of a shorter one |
| `DayKeys.LexLess` | js/app.js:123 | the default string order used by `sort()`: a proper prefix comes before the longer string, and no string comes before itself |
| `DayKeys.LexTotal` | js/app.js:123 | the default string order used by `sort()` puts any two different keys one way or the other |
| `DayKeys.LexTransitive` | js/app.js:123 | the string order is transitive |
| `DayKeys.LexAsymmetric` | js/app.js:123 | the string order is asymmetric, so no key is listed before itself |
| `DayKeys.InsertKey` | js/app.js:123 | inserting a key into a sorted duplicate-free key list keeps it sorted and duplicate-free, and adds exactly that key |
| `DayKeys.IsoOrderIsChronological` | js/app.js:119-123 | for two `YYYY-MM-DD` keys, the string order used by the sort holds exactly when the first date is earlier by year, then month, then day |
| `DayKeys.AscendingUnique` | js/app.js:123 | two sorted duplicate-free key lists with the same keys are equal, so sorting the distinct keys has one outcome |
| `Aggregator.Group` | js/app.js:118-121 | a day's bucket holds exactly the input records whose key is that day, and no more records than the input |
| `Aggregator.Tally` | js/app.js:133-137 | a status count lies between 0 and the number of records tallied (`countBy(...)[status] \|\| 0`) |
| `Aggregator.GroupKeepsCopies` | js/app.js:118-121 | `groupBy` keeps duplicates: a record of that day occurs in its bucket as often as in the input, and a record of another day not at all |
| `Aggregator.StatusCountExtremes` | js/app.js:133-135 | a day's status count is 0 (the `\|\| 0` of a missing `countBy` key) exactly when no record has that status, and equals the number of records exactly when every record has it |
| `Aggregator.OrderedDays` | js/app.js:118-123 | the ordered days are strictly ascending with no duplicates, and a day is listed exactly when at least one record falls on it |
| `Aggregator.OrderedDaysIsTheSort` | js/app.js:123 | any strictly ascending listing of the days that have records equals the ordered days |
| `Aggregator.PerDay` | js/app.js:125-138 | a series has one entry per day; entry i is the tally of day i's records, and a status count lies between 0 and that day's number of records |
| `Aggregator.Labels` | js/app.js:140-143 | one label per day, in day order; label i is the formatted key of day i |
| `Aggregator.DailySeries` | js/app.js:125-138 | the pushed `passed`, `failed` and `duration` series have one entry per day. Entry i is that day's count of `passed` records, count of `failed` records and duration total over all its records, whatever their status |
| `Aggregator.ExtractDataset` | js/app.js:116-150 | labels and the three series are aligned with the ordered days; label i is the formatted key of day i; empty input gives all-empty output; `abnormal` lists exactly the abnormal days of the returned `passed`/`failed` series |
| `Aggregator.CountsWithinDay` | js/app.js:133-135 | a day's passed plus failed count is at most its number of records, with equality when every status is `passed` or `failed` |
| `Aggregator.SeriesConserveTotals` | js/app.js:132-138 | a series over the ordered days sums to the total over the whole input. The passed series sums to the number of `passed` records, the failed series to the number of `failed` records, and the duration series to the total duration |
| `AnomalyDetector.Coefficient` | js/app.js:162-164 | a coefficient lies in [0, 1]. It is 0 exactly when no build failed, and 1 exactly when nothing passed and at least five failed |
| `AnomalyDetector.Coefficients` | js/app.js:162-164 | one coefficient per day, aligned with the `passed` and `failed` arrays; each lies in [0, 1] and is 0 exactly when that day had no failed build |
| `AnomalyDetector.Mean` | js/app.js:167 | for at least one day, the mean times the number of days equals the sum of the coefficients |
| `AnomalyDetector.Variance` | js/app.js:168 | the population variance of the coefficients is non-negative |
| `AnomalyDetector.ThresholdBySquares` | js/app.js:168-172 | for sd the non-negative square root of the variance, `c > mean + sd` holds exactly when the squared test holds |
| `AnomalyDetector.Exceeds` | js/app.js:172 | the squared threshold test passes only for a coefficient strictly above the mean |
| `AnomalyDetector.AboveThreshold` | js/app.js:172 | a flagged day's coefficient is strictly above the mean of all coefficients, so a day at or below the mean is never flagged |
| `AnomalyDetector.FindAbnormal` | js/app.js:159-179 | the result is strictly increasing and holds only valid day indices. Index i is in it exactly when coefficient i is above mean + sd. Every flagged day is above the mean. The result is never longer than the input, and shorter for non-empty input |
| `AnomalyDetector.AbnormalDaysUnique` | js/app.js:171-176 | the list of abnormal days is determined by the coefficients, so the `abnormal` field is exactly `findAbnormal(passed, failed)` |
| `AnomalyDetector.NotAllAbnormal` | js/app.js:167-176 | when there is at least one day, some day is not flagged, because not every coefficient can lie above the mean |
| `AnomalyDetector.ConstantNotAbnormal` | js/app.js:167-176 | when all coefficients are equal, a single day included, nothing is flagged |
| `AnomalyDetector.CoefficientMonotoneInFailed` | js/app.js:163 | more failed builds never lower a day's coefficient, in either branch |
| `AnomalyDetector.CoefficientAntitoneInPassed` | js/app.js:163 | with at least one passed build, more passed builds never raise the coefficient |
| `AnomalyDetector.FirstPassRaisesCoefficient` | js/app.js:163 | because the branch is on `passed`, one failed build scores 0.2 with no passes and 0.5 with one pass, so the first pass raises the coefficient |
| `AnomalyDetector.ZeroPassedFallback` | js/app.js:163 | zero passed builds with 3, 6 and 0 failed builds score 0.6, 1 and 0 |
| `AnomalyDetector.AtThresholdNotFlagged` | js/app.js:172 | passed [10, 0] and failed [0, 10] give coefficients [0, 1], mean 0.5 and variance 0.25 (sd 0.5). The second day sits exactly at the threshold 1, so the strict test flags nothing |
| `AnomalyDetector.ClearOutlierFlagged` | js/app.js:171-176 | passed [10, 10, 1] and failed [0, 0, 9] give coefficients [0, 0, 0.9], mean 0.3 and variance 0.18, and flag exactly the third day |
| `FlagMonotonicity.SquaredDeviationsExpanded` | js/app.js:168 | the sum of squared deviations from m of k values with sum s and sum of squares q is q - 2ms + km^2 |
| `FlagMonotonicity.MeanAndVariance` | js/app.js:167-168 | the mean and the population variance of the coefficients depend only on their number, their sum and their sum of squares |
| `FlagMonotonicity.FlaggedWithoutDivision` | js/app.js:167-172 | for n days, day i is flagged exactly when (n - 1)c exceeds the other days' sum A and the growth polynomial in n, A, the other days' sum of squares and c is positive |
| `FlagMonotonicity.GrowthMonotone` | js/app.js:167-172 | once (n - 1)c exceeds A, raising c keeps that and never lowers the growth polynomial |
| `FlagMonotonicity.RaisingKeepsFlag` | js/app.js:167-176 | raising one day's coefficient never unflags that day, although the mean and the variance move with it |
| `FlagMonotonicity.FlagMonotoneInFailed` | js/app.js:163-176 | more failed builds on a flagged day keep it flagged: raising one day's failures can only add that day to the flagged set |

## Left out

- `loadDataAndBuildCharts` (js/app.js:10-19) is not modelled. It downloads and parses the CSV asynchronously through
  a foreign library. The model starts from the parsed records.
- `renderCharts`, `renderChart1`, `renderChart2` and `renderChart` (js/app.js:22-98) are not modelled. They configure
  charts and touch the DOM. The highlight-colour map is presentation only.
- The global export and the jQuery ready hook (js/app.js:182-189) are not modelled. They hold no logic.
- Date parsing is not modelled (js/app.js:119). The source groups by `new Date(prefix).getTime()` and sorts those
  numbers as strings. The model groups by the ten-character prefix itself and sorts it in string order. The two
  agree for well-formed `YYYY-MM-DD` prefixes whose millisecond values all have 13 digits, which covers ordinary
  dates. Invalid dates, which the source collapses into one `NaN` group, are not modelled.
- Label text is not modelled (js/app.js:140-143). `Date.toString().slice(4, 16)` depends on the host's time zone
  and locale, so the formatting is the parameter `format` of `ExtractDataset`. The model states only that label i is
  the formatted key of day i.
- Floating-point arithmetic is not modelled. The source computes the mean and `ss.standard_deviation` in doubles and
  takes a square root. The model uses exact rationals and the squared comparison, so rounding at the threshold is
  not captured.
- The mean of no coefficients is taken as 0. The value is never used: with no days the collecting loop does not run.
- `FindAbnormal` requires `passed` and `failed` to have the same length. Its only caller passes aligned series, so
  `_.zip`'s padding of unequal arrays is not modelled.
- Malformed records are not modelled. A missing `created_at` throws in the source. The model's records are
  well-formed, with integer durations, so what `_.sum` does with a missing, non-numeric or fractional duration is not
  modelled.
- Re-running the aggregation on the same input gives the same output. No separate lemma states it, because the
  contracts already fix the output. `ExtractDataset` ensures that the labels are the formatted `OrderedDays(records)`
  and that the three series are `PerDay` over those days, all functions of the input. `AbnormalDaysUnique` shows that
  `abnormal` is the one strictly increasing list of flagged days of those series.
- Raising one day's failures is proved to keep that day flagged (`FlagMonotoneInFailed`). What it does to the flags
  of the other days is not stated, because the mean and the deviation move with it.
