# Incremental yellow-taxi aggregation, modelled in Dafny

The script processes one daily snapshot of yellow-taxi trip records per run.
Each run computes three statistics over the snapshot and combines two of
them with the state left on disk by earlier runs:

- the **average price per mile**, `total_amount / trip_distance` averaged
  over the rows where that ratio is finite, together with the row count. It
  is merged with the previous `(avg, count)` as a count-weighted mean;
- the **payment distribution**, the number of rows per `payment_type`
  (keyed by the label's string form). It is merged with the previous
  distribution by `pandas.Series.add`;
- the **custom indicator**, `(tip_amount + extra) / trip_distance` per row
  where finite, kept under the original row index. It is never merged: each
  run appends one `{ymd: values}` document to the custom file.

The model is purely functional:

| file | module | contents |
|---|---|---|
| `wrappers.dfy` | `Wrappers` | `Option`; `None` stands for a pandas null or NaN |
| `trips.dfy` | `Trips` | the trip record, element-wise `+` and `/` with non-finite results as `None`, the `dropna` step that keeps row indices |
| `price.dfy` | `PricePerMile` | `avg_price_per_mile`, the running-mean merge as written and as intended |
| `decimal.dfy` | `Decimal` | `str` of an integer label and its inverse |
| `payments.dfy` | `Payments` | `payment_distribution`, the group-by as a loop, the distribution merge as written and as intended |
| `custom.dfy` | `CustomIndicator` | `custom_indicator` and the append-only custom log |
| `script.dfy` | `Script` | the date key, the output file names, one run, a sequence of runs |

Numeric values are Dafny `real`. A ratio is non-finite exactly when one of its
fields is null or the distance is zero (`x/0` is ±inf and `0/0` is NaN).
Such a ratio is `None` and is dropped. A mean is `Option<real>`, and the
mean of no ratios is `None` (pandas gives NaN).

`Script.Run` follows the code as written, quirks included. The corrected
merges `PricePerMile.MergeMeanIntended` and `Payments.MergeDistributionIntended`
implement the evident intent: a stored mean of 0.0 is a real prior state, a
batch without ratios contributes nothing and the stored count is kept, and a
payment group seen on one side only keeps its count. The history lemmas
(`Script.MeanHistoryExact`, `Script.DistributionHistoryExact`) use these
corrected merges to show that the running state equals the statistic of all
rows ever seen. The differences are listed under Findings.

Four behaviours of the script are easy to miss; the model follows the code:

- A merge with an empty current batch gives a NaN mean, not "no contribution".
- A key on only one side of a distribution merge gets NaN, not the other side's count.
- A re-run of the same date appends a second document to the custom file.
- The custom values are written as an index-to-value object, not a list.

## Model

| member | source | states |
|---|---|---|
| Trips.Plus | script.py:28 | the element-wise sum `tip_amount + extra` is defined exactly when both cells are |
| Trips.Quotient | script.py:11-12 | an element-wise ratio is defined exactly when both operands are present and the divisor is non-zero, and then times the divisor gives the dividend |
| Trips.DropNonFinite | script.py:12-13 | `replace` then `dropna` (also script.py line 29-30): the number of kept cells is the number of defined (finite) cells |
| Trips.DropNonFiniteSound | script.py:12-13 | every value kept after `dropna` is the defined cell at its recorded row index |
| Trips.DropNonFiniteOrdered | script.py:12-13 | kept row indices strictly increase: original order, no duplicates |
| Trips.DropNonFiniteComplete | script.py:12-13 | every defined cell is kept |
| Trips.DropNonFiniteAppend | script.py:11-13 | filtering a concatenated column is filtering each part, the second indexed after the first |
| PricePerMile.AvgPricePerMile | script.py:9-15 | `avg_price_per_mile`: the count is the number of rows with a present amount and a present, non-zero distance, counted row by row, and the mean is NaN exactly when that count is zero |
| PricePerMile.MeanTimesCount | script.py:15 | for a batch with a finite ratio, the mean times the count is the sum of the kept ratios |
| PricePerMile.PriceSeriesExact | script.py:9-13 | the ratio series holds `total_amount / trip_distance` for exactly the rows with both fields present and a non-zero distance, at their row index, in row order |
| PricePerMile.UnpricedRowIgnored | script.py:11-15 | a row with zero or missing distance, inserted anywhere, changes neither mean nor count |
| PricePerMile.AvgPricePerMileExample | script.py:9-15 | the batch `{10, 2 mi}, {20, 0 mi}` gives `(5.0, 1)` |
| PricePerMile.HasPrior | script.py:79 | `prev_avg and prev_count` holds exactly when a state was read with a non-zero count and a mean other than 0.0; a NaN mean passes |
| PricePerMile.WeightedMerge | script.py:80-81 | the new count is the sum of the counts and the new mean times the new count is the sum of the two count-weighted means |
| PricePerMile.MergeMean | script.py:79-84 | the result is the current statistic unchanged exactly when there is no truthy prior state (missing, mean 0.0 or count 0); otherwise counts add and the mean is NaN if either side is |
| PricePerMile.MergeMeanWeighted | script.py:80-81 | after a warm merge the new mean times the new count is the sum of the two weighted means |
| PricePerMile.MergeMeanExample | script.py:79-81 | a state of `(4.0, 3)` and a snapshot of `(6.0, 1)` merge to `(4.5, 4)` |
| PricePerMile.MergeMeanSymmetric | script.py:79-81 | whenever both statistics pass the truthiness guard (a NaN mean included), the merge does not depend on which is the prior state |
| PricePerMile.MergeMeanOfBatches | script.py:78-84 | merging the statistic of batch `a` into that of `b` gives the statistic of `a + b` when `a` has a non-zero mean and `b` has a finite ratio |
| PricePerMile.MergeMeanDropsZeroPrior | script.py:79 | three zero-fare rides then a 6.0-per-mile ride merge to `(6.0, 1)` instead of `(1.5, 4)` |
| PricePerMile.MergeMeanEmptyBatchIsNaN | script.py:78-81 | a snapshot with no finite ratio merged into a valid state yields a NaN mean with the prior count |
| PricePerMile.MergeMeanIntended | script.py:79-84 | corrected merge: a missing state, or one without ratios, is replaced by the current statistic; a batch without ratios leaves a valid state unchanged; otherwise counts add and the new mean times the new count is the sum of the weighted means, whatever the stored mean's value |
| PricePerMile.MergeMeanIntendedOfBatches | script.py:79-84 | for all batches, the corrected merge of their statistics is the statistic of their concatenation |
| Decimal.ParseShow | script.py:21 | parsing the string form of a label gives the label back |
| Decimal.ShowInjective | script.py:21 | two labels have the same string key exactly when they are equal |
| Decimal.Show | script.py:21 | `str` of a label is non-empty and starts with a minus sign exactly for a negative label (inverted by `Decimal.ParseShow`) |
| Payments.PaymentDistribution | script.py:18-23 | an empty batch yields an empty distribution |
| Payments.CountPayments | script.py:20 | the row-by-row group count computes the distribution |
| Payments.DistributionSnoc | script.py:20 | counting one more row changes only that row's group, by one if its first column is non-null |
| Payments.DistributionByLabel | script.py:20-21 | a label's key is present exactly when some row carries that label, and it counts the rows with that label and a non-null first column |
| Payments.DistributionKeysAreLabels | script.py:20-21 | every key is the string form of a label some row carries |
| Payments.DistributionTotal | script.py:20 | the counts add up to the number of rows with a label and a non-null first column |
| Payments.MergeDistributionSumsOnlyShared | script.py:87-90 | against the corrected key-wise sum, `Series.add` as written has the same keys, and gives the sum on a key exactly when both sides count it; every other key is NaN |
| Payments.MergeDistributionCommutes | script.py:88 | the merge as written does not depend on which distribution is the stored one: shared keys sum either way and one-sided keys are NaN either way |
| Payments.MergeDistributionExample | script.py:88 | `{"1": 5}` merged with `{"1": 2, "2": 3}` gives `{"1": 7, "2": NaN}` as written and `{"1": 7, "2": 3}` corrected |
| Payments.AddCountsCommutes | script.py:88 | the corrected sum is commutative |
| Payments.AddCountsEmpty | script.py:88 | summing with an empty distribution is a no-op |
| Payments.AddCountsTotal | script.py:88 | the corrected key-wise sum loses and invents no rows: its counts add up to the counts of both sides |
| Payments.DistributionAppend | script.py:86-90 | the corrected merge of two batches' distributions is the distribution of their concatenation |
| CustomIndicator.Indicator | script.py:26-32 | `custom_indicator`: at most one value per row (row indices strictly increase), and only rows with tip, extra and a present, non-zero distance contribute one |
| CustomIndicator.IndicatorExact | script.py:26-32 | the series holds `(tip_amount + extra) / trip_distance` for exactly the rows with all three fields and a non-zero distance, at their row index, in order |
| CustomIndicator.IndicatorExample | script.py:26-32 | rows with indicators 1.5 and 2.0 give `{0: 1.5, 1: 2.0}` |
| CustomIndicator.AppendRunKeepsHistory | script.py:107-113 | appending keeps every earlier document and adds the new date last |
| Script.Ymd | script.py:44-45 | `date[:4] + date[4:6] + date[6:]` is the date argument itself, for any length |
| Script.DatePartsOfFullDate | script.py:44 | an eight-character date splits into year, month and day |
| Script.AvgNameRecognised | script.py:62-66 | the avg file a run writes (line 96) is recognised by the next scan as an avg file and nothing else |
| Script.DistribNameRecognised | script.py:68-72 | the distrib file a run writes (line 102) is recognised as a distrib file only |
| Script.CustomNameRecognised | script.py:74-75 | the custom file a run writes (line 113 or 116) is recognised as a custom file only |
| Script.Run | script.py:78-119 | output names are the date plus the fixed suffixes; the count adds the prior count only under the truthiness guard; distribution keys are the union; the custom log is the previous one plus this run's entry |
| Script.Reload | script.py:59-75 | the state the next run reads back has a distribution and a custom log, and passes the mean's truthiness guard exactly when the count written is non-zero and the mean written is not 0.0 |
| Script.RunColdStart | script.py:79-90 | without prior files every output is the snapshot's own statistic |
| Script.ReplayLog | script.py:107-119 | after any sequence of runs the custom log is the initial log followed by one entry per run, in run order |
| Script.ReplayDates | script.py:107-119 | from a cold start, the dates in the custom log are exactly the runs' date arguments, in run order (N runs, N entries) |
| Script.MeanHistoryExact | script.py:78-84 | with the corrected merge, the running mean after any sequence of snapshots is the mean over all their rows |
| Script.DistributionHistoryExact | script.py:86-90 | with the corrected merge, the running distribution is the distribution of all rows seen |

## Left out

- Argument parsing, the usage message and the exit codes (script.py:37-42, 122) are left out as command-line plumbing. `Script.Run` takes the date string directly.
- Reading the parquet snapshot and its file name (script.py:48-56) are file I/O. The snapshot is the `Batch` argument.
- The directory scan, `json.load`, `os.remove`, `json.dump` and `os.rename` (script.py:59-75, 95-119) are filesystem I/O. The previous files are the `State` argument, the written files are the `Output` result, and `Script.Reload` assumes values read back unchanged. With several matching files the last one listed wins; that depends on directory order and is not modelled.
- The custom file is modelled as a sequence of `{ymd: values}` documents. Mode 'a' concatenates JSON texts rather than merging one object; the JSON text itself is not modelled.
- A missing column raises `KeyError` in pandas; the record has a fixed schema, so this is not modelled.
- Floating point is `real`: no rounding, and an infinite input field is not modelled. NaN and null are both `None`.
- `payment_type` is modelled as an integer column. A float-typed label column, whose string keys would read `"1.0"`, is not modelled.
- Payments.PaymentDistribution: a batch with a null `payment_type` is modelled as an integer label column with a missing cell, so the other rows keep keys such as `"1"`. pandas reads an integer parquet column that holds nulls as float64, so for such a batch the script's keys read `"1.0"`; the model's keys differ from the script's for exactly those batches. The null row is in no group in both.
- `count()` counts the non-null cells of the batch's first column. The model reduces that column to the per-row flag `anchor`.
- The order of deletes and writes is not modelled. A crash between the delete of the old state and the write of the new one loses data; that is a property of the file system calls, outside a pure model.
- Payments.AddCountsCommutes, Payments.AddCountsEmpty: these state the corrected merge's laws. The merge as written also commutes (`Payments.MergeDistributionCommutes`), because a one-sided key is NaN in either order. It is not a no-op with an empty side: every key of the other side becomes NaN.
- Script.Reload: assumes the script is started from its own directory. It lists the directory of `script.py` (script.py:59, 61) but opens, removes, writes and renames files relative to the working directory (script.py:63-72, 95-116). From any other directory a run starts cold or fails to open a file it listed, and `Script.Reload`, `Script.Replay`, `Script.ReplayLog` and `Script.ReplayDates` do not describe it.
- Row indices: a row's index is its position in the snapshot. That is the default `RangeIndex` pandas gives a parquet file without a stored index. A file that stores its own index would key the custom series (script.py:32, 112) by those labels instead.

## Findings

| source | as written | input that shows it | evidently intended | confidence | as-written member | corrected member |
|---|---|---|---|---|---|---|
| script.py:79 | `if prev_avg and prev_count` treats a stored mean of 0.0 as no prior state and drops its count | three zero-fare one-mile rides stored as `(0.0, 3)`, then one 6.0-per-mile ride: result `(6.0, 1)` | `(1.5, 4)`, the mean of all four rides | high, not executed | PricePerMile.MergeMeanDropsZeroPrior | PricePerMile.MergeMeanIntendedOfBatches |
| script.py:80-81 | an empty current batch (mean NaN, count 0) merged into a valid state makes the stored mean NaN, and every later merge stays NaN | stored `(4.0, 3)`, snapshot whose rows all have zero distance: result `(NaN, 3)` | `(4.0, 3)`: an empty batch contributes nothing | medium, not executed | PricePerMile.MergeMeanEmptyBatchIsNaN | PricePerMile.MergeMeanIntendedOfBatches |
| script.py:88 | `prev_distribution.add(curr_distribution)` without `fill_value` gives NaN for a key present on only one side | stored `{"1": 5}`, current `{"1": 2, "2": 3}`: result `{"1": 7, "2": NaN}` | `{"1": 7, "2": 3}`, missing keys counting as zero | high, not executed | Payments.MergeDistributionExample | Payments.DistributionAppend |
