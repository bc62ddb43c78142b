# Last-mile delivery dashboard: data pipeline model

A Dafny model of the data-preparation and filtering pipeline of the last-mile
delivery performance dashboard (`app.py`). The dashboard reads a CSV of deliveries,
drops every row with a missing cell, flags late deliveries against a threshold of
mean plus one sample standard deviation of the whole cleaned dataset, buckets agent
ages into three right-closed bins, narrows the records by five optional sidebar
selections, and shows two metrics (average delivery time, late percentage) and
three mean-per-group views (by weather and traffic, by vehicle, by area).

Everything is pure functions over sequences:

- `Wrappers`: `Option`, standing for pandas' NaN wherever a value is undefined.
- `Seqs`: order-preserving selection (`Filter`) with an index witness
  (`SelectedIndices`), the shape of both `dropna()` and boolean-mask indexing.
- `Stats`: sum, min, max, mean and sample variance over `real`.
- `Records`: raw CSV rows with optional cells, complete records, and `Clean` (`dropna()`).
- `Enrichment`: `pd.cut` with right-closed bins, the age bucket, the late threshold and `Enrich`.
- `Filters`: the five-step selection chain and its one-predicate equivalent.
- `Metrics`: average delivery time and late percentage.
- `Grouping`: group-by-key and mean per group.
- `Dashboard`: the wiring of one page render, and worked examples.

## Behaviour of app.py worth noting

- Enriching an empty (or one-row) dataset does not fail. pandas yields NaN for the
  mean of no values and for the sample deviation of fewer than two, a comparison
  with NaN is false, and so no record is late. `LateThreshold` returns None there.
- The category chart (`app.py:80`) is a box plot of the filtered records with no
  aggregation; only weather and traffic, vehicle, and area are grouped and averaged.
- The middle age label is written with an en dash, `25–40`.

## Model

| member | source | states |
|---|---|---|
| Records.Clean | app.py:18 | the cleaned dataset holds, in input order, one record per complete row and nothing else: its k-th record is the k-th complete row read as a record |
| Records.CleanKeepsCompleteRow | app.py:18 | every row without a missing cell reaches the cleaned dataset |
| Records.CleanCompleteDataset | app.py:18 | a dataset with no missing cell passes through cleaning unchanged |
| Seqs.Filter | app.py:33-42 | mask indexing keeps only elements satisfying the mask, keeps every one that does, and never grows the sequence |
| Seqs.SelectedIndices | app.py:33-42 | the kept positions are strictly increasing and are exactly the positions whose element satisfies the mask |
| Seqs.FilterSelects | app.py:33-42 | the filtered sequence is the input read at the kept positions, so an order-preserving subsequence |
| Seqs.FilterFuse | app.py:33-42 | two successive mask steps equal one step by the conjunction of the masks |
| Stats.Mean | app.py:19 | the mean of a non-empty column lies between its least and greatest value |
| Stats.Average | app.py:46 | `mean()` is undefined exactly for an empty column and otherwise lies between the least and greatest value |
| Stats.SampleVariance | app.py:20 | the sample variance (divisor n - 1) is never negative |
| Enrichment.Cut | app.py:22 | `pd.cut` finds a bin exactly when the value is above the first edge and at most the last, and then the value is above the bin's left edge and at most its right edge |
| Enrichment.AgeBucket | app.py:22 | ages 1..25 are `<25`, 26..40 are `25–40`, 41..100 are `40+`, and an age at most 0 or above 100 has no group; the group's label is the label `pd.cut` assigns to the bin the age falls in |
| Enrichment.AgeLabelOf | app.py:22 | an age has a label exactly when it is in 1..100, and the label is `<25`, `25–40` or `40+` according to its bin |
| Enrichment.LateThreshold | app.py:19-21 | the threshold exists exactly when there are at least two rows, is then the mean of the delivery times plus the deviation, and with a non-negative deviation it is at least the fastest delivery |
| Enrichment.Enrich | app.py:19-22 | one enriched record per cleaned record, same order and fields, late exactly when strictly above the threshold of the whole input, age group by the age bins |
| Enrichment.LateExactly | app.py:19-21 | a record is late exactly when there are at least two records and its delivery time is strictly above their mean plus the deviation |
| Enrichment.FewRecordsNoneLate | app.py:19-21 | with fewer than two records nothing is late |
| Enrichment.AtThresholdNotLate | app.py:21 | a delivery time exactly equal to the threshold is not late |
| Enrichment.AtOrBelowMeanNotLate | app.py:19-21 | with a non-negative deviation a delivery at or below the mean is not late |
| Enrichment.NotAllLate | app.py:19-21 | with a non-negative deviation some record of a non-empty dataset is on time |
| Filters.Restrict | app.py:33-34 | one chain step filters by membership in the selection, and an empty selection admits everything |
| Filters.ApplyFilters | app.py:32-42 | the five-step chain equals one filter by "every non-empty selection contains the record's value": sound, complete and taken from the input unchanged |
| Filters.ChainIsConjunction | app.py:32-42 | the five successive steps compose to the conjunction of the five admissions |
| Filters.ApplyFiltersSelects | app.py:32-42 | the filtered records are the input at strictly increasing positions, exactly the positions of matching records |
| Filters.NoSelectionKeepsAll | app.py:32-42 | with all five selections empty the filtered dataset is the whole dataset |
| Filters.ApplyFiltersIdempotent | app.py:32-42 | filtering again with the same selections changes nothing |
| Metrics.AverageDeliveryTime | app.py:46 | undefined exactly for an empty selection, otherwise between the fastest and the slowest delivery |
| Metrics.IndicatorSumIsLateCount | app.py:47 | the sum of the 0/1 late column is the number of late deliveries |
| Metrics.LateShare | app.py:47 | the mean of the late column is late count over record count and lies in [0, 1] |
| Metrics.LatePercentage | app.py:47 | undefined exactly for an empty selection, otherwise 100 times late count over record count, within [0, 100] |
| Grouping.DistinctKeys | app.py:53 | the distinct keys, each exactly once, are precisely the keys of the input |
| Grouping.TimesOf | app.py:53 | a key's times are drawn from rows with that key and are non-empty exactly when the key occurs |
| Grouping.TimesOfSelects | app.py:53 | a key's times are, in row order, exactly the times of the rows whose key equals it, one per such row |
| Grouping.GroupBy | app.py:53 | one group per distinct input key, no two groups with the same key, none empty, each holding exactly its key's times |
| Grouping.GroupSizesSum | app.py:53 | the group sizes add up to the number of input rows |
| Grouping.GroupMeans | app.py:53 | one row per distinct key, its value the mean of that key's times and between their least and greatest |
| Dashboard.Prepare | app.py:18-22 | with `std` the sample standard deviation of the cleaned times, one enriched record per cleaned record, in order: late exactly when there are at least two and its time is above their mean plus `std`, aged by the bins, and at least one record on time |
| Dashboard.KeyedTimesOf | app.py:53-73 | in the (key, delivery time) projection a key's times are the delivery times of the records with that key, in order |
| Dashboard.GroupedView | app.py:53-73 | `groupby(key)['Delivery_Time'].mean()` over records gives one row per distinct key of the records and no other, each holding the mean delivery time of the records with that key |
| Dashboard.Render | app.py:32-73 | the page shows the records matching the selection, in their order |
| Dashboard.RenderAverage | app.py:46 | the page's average delivery time is undefined when nothing matches, otherwise the total delivery time of the records shown over their count |
| Dashboard.RenderLatePercentage | app.py:47 | the page's late percentage is undefined when nothing matches, otherwise 100 times the late count of the records shown over their count |
| Dashboard.RenderViews | app.py:53-73 | the three charts receive the mean delivery time per weather and traffic pair, per vehicle and per area of the records shown |
| Dashboard.EmptySelectionShowsNoData | app.py:46-73 | an empty selection yields undefined metrics and empty grouped views instead of a failure |
| Dashboard.FlagsIndependentOfSelection | app.py:18-42 | every record the filters keep, whatever the selection, carries the late flag of the whole cleaned dataset's threshold and its age group |
| Dashboard.LateScenario | app.py:19-47 | deliveries of 10, 20, 30 and 100 minutes with the true sample deviation give a late percentage of 25 |
| Dashboard.SunnyScenario | app.py:33-34 | selecting weather "Sunny" from three sunny and two rainy deliveries keeps the three sunny ones in their order |
| Dashboard.VehicleScenario | app.py:60 | bike deliveries of 10 and 20 minutes and a car delivery of 30 give means 15 and 30 |

## Left out

- Page setup, sidebar widgets, metric display and the closing message (`app.py:6-8`, `25-30`, `45`, `48-49`, `84`): user interface only.
- Chart construction and rendering (`app.py:54-82`): presentation in a foreign library; the model stops at the data each chart receives.
- Reading the CSV and `@st.cache_data` (`app.py:10-15`): file I/O and framework caching; the input is a given sequence of rows.
- The square root behind `std()` (`app.py:20`): the late threshold takes the standard deviation as a parameter; `Stats.SampleVariance` models its square exactly, and `Dashboard.Prepare` and `Dashboard.LateScenario` require the parameter to be its non-negative square root.
- Rounding to two decimals (`app.py:46-47`) and floating point: the model computes in exact `real`.
- The option lists of the widgets (`app.py:26-30`): selections are arbitrary sets of strings; only membership matters.
- Grouping.GroupMeans: lists groups in order of first appearance, while pandas sorts the group keys; the order only affects how the bars are laid out.
- Enrichment.Cut: requires strictly increasing edges; pandas raises an error for other bins, a case the dashboard cannot reach because its bins are the constant `[0, 25, 40, 100]`.
- Enrichment.AgeBucket: ages are whole numbers; `pd.cut` would also bin fractional ages by the same right-closed rule.
