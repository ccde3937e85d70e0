# CrUX API analyzer: model of the data-shaping core

`crux_api_analyzer.py` reads a list of URLs and queries the Chrome UX Report API
(`records:queryRecord`) for each URL. It turns every decoded response into two things:

- a performance summary: parallel lists of metric, p75 value, rating and the three band
  percentages;
- a flat raw row: one column per p75 value, per histogram bucket field and per form-factor
  fraction.

It then writes both tables to CSV with pandas. This project models that pipeline in Dafny,
apart from the I/O around it.

- **Response** (`CruxResponse`). The decoded JSON is typed data. Every key the code probes
  with `in` or `.get` is an `Option`. Every object it iterates or looks up by name is a
  `Dict`: an insertion-ordered sequence of pairs with distinct keys (`OrderedDict`). Its
  `Insert` follows Python's `d[k] = v`: it replaces the value in place when the key exists
  and appends otherwise. The exceptions the code can raise are an `Error` value.
- **Classifier** (`Classifier`). The threshold table and the inclusive `<=` rating.
  - `float(str(p75))` is modelled with Python's float values: finite, ±infinity and NaN.
  - A JSON number converts to itself.
  - A string goes through an abstract `parse` parameter that stands for Python's `float`
    on strings; `None` means it raises `ValueError`.
- **Performance shaper** (`PerformanceShaper`). `extract_performance_data` is a method whose
  loop appends to six lists. It is proved equal to the specification function `Shape`, and
  `Shape`'s properties are proved as lemmas:
  - the lists are parallel and follow the metrics' order;
  - the percentages are the bucket densities times 100;
  - it raises exactly when a kept metric's `['p75']` (line 91), its bucket 0–2 `['density']`
    (lines 96–98) or its `float(str(p75))` (line 102) raises.
- **Raw shaper** (`RawShaper`, `RawRow`). `extract_raw_metrics` is a method that inserts
  columns into a dict one at a time. It is proved equal to `RawColumns`, the concatenation of
  the column groups. The proof shows that no column name ever repeats, so no insertion
  overwrites another. `RawRow` states what each column holds.
- **Query post-processing** (`ReportClient`). The HTTP exchange is an input `Reply`. What the
  function does with the decoded body is modelled: it passes an `error` response through, and
  it raises `KeyError('p75')` in the printing loop at line 71.
- **Input reader** (`InputReader`). The `.txt` comprehension over stripped lines, with
  Python's `str.strip` whitespace set (`Strings`). The suffix dispatch of `read_urls` is
  modelled too; the `.csv` column pandas would read is a parameter.
- **Main loop** (`Orchestrator`). The per-URL `try` block: a URL whose query or shaping
  raises appends to neither accumulator. `Analyze` is the loop, proved against the
  specification function `Collected`.
- **Flattening** (`Flatten`). The nested `zip` comprehension that builds the performance
  table rows.
- **Pipeline** (`Pipeline`). `main` end to end: `read_urls`, the loop, the flattening.

Two behaviours of the code that shape the model:

- `form_factors` is read inside `record.metrics` (line 142), as one more member of the
  metrics object.
- A response carrying an API `error` object is returned by `query_crux_api` after its
  members are printed (lines 62–66), and both shapers then run on it (lines 158–163), so any
  `record` it carries is shaped as usual (`Orchestrator.ApiErrorShaped`). When such a response
  carries no `record`, as the CrUX API's error replies do not, the URL contributes a
  performance entry with no metrics and a raw row with only its two URL columns
  (`Orchestrator.ApiErrorCollected`).

## Model

| member | source | states |
|---|---|---|
| Classifier.Thresholds | crux_api_analyzer.py:18-24 | the definition of the threshold table, five metrics with their good and needs-improvement bounds; `ThresholdsOrdered` and `ClassifyBands` state its properties |
| Classifier.Rating.Label | crux_api_analyzer.py:103-110 | the definition of the texts 'Good', 'Needs Improvement', 'Poor' and 'N/A' appended to the `Rating` list; `LabelInjective` states they are distinct |
| Classifier.AtMost | crux_api_analyzer.py:102-104 | the definition of `v <= bound` on a Python float: true for a finite value within the bound and for -inf, false for +inf and NaN; `RateNonFinite` states its effect |
| Classifier.Rate | crux_api_analyzer.py:102-107 | the definition of the `if`/`elif`/`else` bands; `ClassifyBands`, `RateMonotonic` and `RateNonFinite` state its properties |
| Classifier.Coerce | crux_api_analyzer.py:102 | the definition of `float(str(p75))`: a number converts to itself, a string goes through `parse`; `Classify` states when it fails |
| Classifier.Classify | crux_api_analyzer.py:100-110 | a name outside the table rates N/A whatever the value; a name in the table raises ValueError exactly when `float(str(p75))` fails, and otherwise never rates N/A |
| Classifier.LabelInjective | crux_api_analyzer.py:103-110 | the four rating texts 'Good', 'Needs Improvement', 'Poor', 'N/A' are distinct, so a `Rating` cell determines the rating |
| Classifier.ThresholdsOrdered | crux_api_analyzer.py:18-24 | every entry of the threshold table has 0 < good bound < needs-improvement bound |
| Classifier.ClassifyBands | crux_api_analyzer.py:100-108 | for a metric in the table and a p75 that `float(str(p75))` turns into a finite x, whether a JSON number or a parsed string: Good iff p75 <= good bound, Needs Improvement iff good < p75 <= needs-improvement bound, Poor iff p75 > needs-improvement bound |
| Classifier.RateMonotonic | crux_api_analyzer.py:102-107 | a larger p75 never gets a better rating |
| Classifier.RateNonFinite | crux_api_analyzer.py:102-107 | NaN and +inf fail both `<=` tests and rate Poor; -inf rates Good |
| Classifier.ClassifyExamples | crux_api_analyzer.py:100-110 | LCP 2500 is Good, 4000 Needs Improvement, 4001 Poor; CLS "0.25" is Needs Improvement when it parses as 0.25; an unknown metric is N/A even when its value does not parse |
| PerformanceShaper.Eligible | crux_api_analyzer.py:90 | the definition of the test `'percentiles' in metric_data and 'histogram' in metric_data`; `Selected`, `SelectedContains` and `SkipsIneligible` state its role |
| PerformanceShaper.DensityAt | crux_api_analyzer.py:96-98 | the definition of `histogram[i]['density']`: IndexError past the end, KeyError('density') when missing; `ShapeEntry` states its effect |
| PerformanceShaper.ShapeEntry | crux_api_analyzer.py:91-110 | one metric's entry exists iff p75 is present, there are >= 3 buckets, buckets 0–2 have densities and the rating does not raise; a missing p75 raises KeyError('p75'); fewer than 3 buckets raises; the entry holds the name, the p75, its rating and 100 × each of the three densities |
| PerformanceShaper.Selected | crux_api_analyzer.py:89-90 | no more metrics are kept than given, and every one kept has both `percentiles` and `histogram` |
| PerformanceShaper.EntriesOf | crux_api_analyzer.py:89-110 | the definition of what the loop has appended, or the exception it raised; `EntriesSpec`, `EntriesErrPersists` and `EntriesOfSelected` state its properties |
| PerformanceShaper.Unzip | crux_api_analyzer.py:79-87 | the definition of the returned dict with its six lists built from the entries; `UnzipSnoc` and `ShapeFollowsMetrics` state its properties |
| PerformanceShaper.Shape | crux_api_analyzer.py:75-112 | the definition of the value `extract_performance_data` returns or the exception it raises; `ShapeFollowsMetrics`, `ShapeFails` and `ExtractPerformanceData` state its properties |
| PerformanceShaper.ExtractPerformanceData | crux_api_analyzer.py:75-112 | the loop returns exactly `Shape(data)`; on success the six lists are parallel, as long as the number of metrics with both fields, and `URL` is `urlNormalizationDetails.originalUrl` or '' |
| PerformanceShaper.EntriesSpec | crux_api_analyzer.py:89-110 | the loop yields one entry per kept metric, in order, each that metric's shaped entry; it raises iff some kept metric raises |
| PerformanceShaper.UnzipSnoc | crux_api_analyzer.py:94-98 | appending one entry appends one element to each of the six lists |
| PerformanceShaper.EntriesErrPersists | crux_api_analyzer.py:89-98 | once a metric has raised, the function's outcome is that exception whatever metrics follow |
| PerformanceShaper.SelectedAppend | crux_api_analyzer.py:89-90 | keeping metrics distributes over concatenation, so iteration order is preserved |
| PerformanceShaper.EntriesOfSelected | crux_api_analyzer.py:89-90 | the result depends only on the metrics with both fields |
| PerformanceShaper.SkipsIneligible | crux_api_analyzer.py:90 | a metric missing `percentiles` or `histogram` adds nothing wherever it stands |
| PerformanceShaper.SelectedContains | crux_api_analyzer.py:89-90 | every metric with both fields is kept |
| PerformanceShaper.ShapeFollowsMetrics | crux_api_analyzer.py:89-110 | on success, position k of every list describes the k-th metric with both fields: its name, p75, rating and 100 × densities of buckets 0, 1, 2 |
| PerformanceShaper.ShapeFails | crux_api_analyzer.py:91-98 | the function raises iff some metric with both fields raises; a histogram with fewer than three buckets always raises |
| PerformanceShaper.ShapeExample | crux_api_analyzer.py:96-98 | densities 0.5/0.3/0.2 give exactly 50/30/20 percent under the model's exact-real `density * 100` (Python's float product gives 30.000000000000004 for 0.3), and LCP 2400 rates Good |
| CruxResponse.RequestedMetrics | crux_api_analyzer.py:125-127 | the definition of the five metric names iterated in order, the same list the request sends (lines 43-49); `RequestedMetricsTags` and `RawRowP75` state its properties |
| RawShaper.BucketFields | crux_api_analyzer.py:137-139 | the definition of the three bucket fields density, start and end, in insertion order; `RawRowBucket` and `HistogramColumnsAt` state its properties |
| RawShaper.P75Key | crux_api_analyzer.py:132 | the definition of `f"{metric_name}_p75"`; `RawRowP75` states what the column holds |
| RawShaper.BucketKey | crux_api_analyzer.py:137-139 | the definition of `f"{metric_name}_bucket_{idx}_{field}"`; `BucketKeyInjective` states it is injective in index and field |
| RawShaper.FormFactorKey | crux_api_analyzer.py:144 | the definition of `f"form_factor_{device}"`; `RawRowFormFactor` states what the column holds |
| RawShaper.Cell | crux_api_analyzer.py:132 | the definition of `.get(key, '')` on a scalar member |
| RawShaper.DensityCell | crux_api_analyzer.py:137 | the definition of `bucket.get('density', '')` |
| RawShaper.BucketCell | crux_api_analyzer.py:137-139 | the definition of the cell of one bucket field; `RawRowBucket` states where it lands |
| RawShaper.BaseColumns | crux_api_analyzer.py:119-122 | the definition of the opening dict display; `RawRowUrls` states its contents |
| RawShaper.P75Columns | crux_api_analyzer.py:131-132 | the definition of the `_p75` column, present only with `percentiles`; `RawRowP75` states it in the whole row |
| RawShaper.BucketColumns | crux_api_analyzer.py:137-139 | the definition of one bucket's three columns; `HistogramColumnsAt` states their positions |
| RawShaper.HistogramColumns | crux_api_analyzer.py:135-139 | the definition of `enumerate(histogram, 1)` as columns; `HistogramColumnsAt`, `HistogramColumnsDistinct` and `LookupHistogram` state its properties |
| RawShaper.MetricColumns | crux_api_analyzer.py:128-139 | the definition of everything one metric contributes; `MetricColumnsDistinct` and `LookupMetricBucket` state its properties |
| RawShaper.FixedColumns | crux_api_analyzer.py:125-139 | the definition of the five requested metrics' columns, in order; `FixedColumnsDistinct`, `FixedColumnsStep` and `FixedColumnsDependOnNamed` state its properties |
| RawShaper.FractionColumns | crux_api_analyzer.py:143-144 | the definition of one column per `fractions` entry; `FractionColumnsAt` and `LookupFractions` state its properties |
| RawShaper.FormFactorColumns | crux_api_analyzer.py:142-144 | the definition of the device columns, taken from `form_factors` inside `record.metrics`; `RawRowFormFactor` states its contents |
| RawShaper.RawColumns | crux_api_analyzer.py:119-146 | the definition of the whole row in insertion order; `ExtractRawMetrics`, `RawColumnsDistinct` and the `RawRow` lemmas state its properties |
| RawShaper.ExtractRawMetrics | crux_api_analyzer.py:114-146 | the dict built by the insertions is exactly `RawColumns(data)`: the two URL columns, then each requested metric's columns in fixed order, then the device columns |
| RawShaper.AddMetricColumns | crux_api_analyzer.py:128-139 | one pass of the fixed-metrics loop inserts that metric's `_p75` column, then the three columns of every bucket in order |
| RawShaper.AddFormFactorColumns | crux_api_analyzer.py:142-144 | the form-factor step inserts one `form_factor_<device>` column per fraction, in order, and none without `form_factors` |
| RawShaper.FixedColumnsStep | crux_api_analyzer.py:125-128 | each requested metric, looked up with `.get(name, {})`, appends its own columns |
| RawShaper.InsertBucket | crux_api_analyzer.py:136-139 | one bucket inserts `_density`, `_start`, `_end` under its 1-based index |
| RawShaper.InsertFraction | crux_api_analyzer.py:143-144 | one device inserts `form_factor_<device>` with its fraction |
| RawShaper.InsertionGivesRawColumns | crux_api_analyzer.py:119-144 | inserting every column into the opening dict gives their plain concatenation: nothing is overwritten |
| RawShaper.RawColumnsDistinct | crux_api_analyzer.py:119-144 | no column name of the raw row occurs twice |
| RawShaper.RequestedMetricsTags | crux_api_analyzer.py:125-127 | the five requested metric names differ in their first two characters |
| RawShaper.BucketKeyInjective | crux_api_analyzer.py:137-139 | a bucket column's name determines its bucket number and field |
| RawShaper.HistogramColumnsAt | crux_api_analyzer.py:136-139 | a histogram of n buckets yields 3n columns; column t is field t mod 3 of bucket t div 3 + 1 |
| RawShaper.HistogramColumnsDistinct | crux_api_analyzer.py:136-139 | the bucket column names of one metric are distinct |
| RawShaper.MetricColumnsDistinct | crux_api_analyzer.py:131-139 | one metric's p75 and bucket columns have distinct names, all sharing the first two characters of the metric's name |
| RawShaper.FixedColumnsDistinct | crux_api_analyzer.py:125-139 | the columns of several metrics with distinct two-letter prefixes never share a name |
| RawShaper.FractionColumnsAt | crux_api_analyzer.py:143-144 | device column t is `form_factor_<device t>` holding fraction t |
| RawShaper.FormFactorColumnsDistinct | crux_api_analyzer.py:143-144 | the device columns have distinct names |
| RawRow.RawRowUrls | crux_api_analyzer.py:119-122 | the row always opens with `url` and `normalized_url`, holding `originalUrl` and `normalizedUrl` or '' when missing; `row['url']` always exists |
| RawRow.RawRowP75 | crux_api_analyzer.py:131-132 | a requested metric's `_p75` column exists iff the metric has `percentiles` (whether or not it has a histogram) and holds `p75`, or '' when missing |
| RawRow.LookupHistogram | crux_api_analyzer.py:136-139 | in one histogram's columns, `_bucket_<i>_<field>` exists iff 1 <= i <= bucket count and field is density/start/end, and holds that field of bucket i |
| RawRow.LookupMetricBucket | crux_api_analyzer.py:135-139 | within one metric's columns, bucket columns exist only when the metric has a histogram |
| RawRow.RawRowBucket | crux_api_analyzer.py:135-139 | in the whole row, `<metric>_bucket_<i>_<field>` exists iff the requested metric has a histogram with >= i buckets and field is density/start/end; it holds that field of bucket i, '' when missing |
| RawRow.LookupFractions | crux_api_analyzer.py:143-144 | `form_factor_<d>` in the device columns holds d's fraction and exists only for listed devices |
| RawRow.RawRowFormFactor | crux_api_analyzer.py:142-144 | in the whole row, `form_factor_<d>` exists iff `record.metrics` has `form_factors` listing d, and holds its fraction |
| RawRow.FixedColumnsDependOnNamed | crux_api_analyzer.py:125-128 | the metric columns depend only on the lookups of the names iterated |
| RawRow.RawRowIgnoresOtherMetrics | crux_api_analyzer.py:125-128 | two responses agreeing on the two URLs, the five requested metrics and `form_factors` give the same row |
| ReportClient.P75Printable | crux_api_analyzer.py:70-71 | the definition of a metric the printing loop can print without raising; `PrintP75s` states its role |
| ReportClient.PrintP75s | crux_api_analyzer.py:68-71 | the printing loop succeeds iff every metric with `percentiles` has `p75`, and otherwise raises KeyError('p75') |
| ReportClient.QueryCrux | crux_api_analyzer.py:59-73 | a failed transfer raises; a response with `error` is returned as it is; one without it is returned iff every metric with `percentiles` has `p75`, and otherwise raises KeyError('p75') |
| ReportClient.PrintP75sAppend | crux_api_analyzer.py:69-71 | the printing loop over two runs of metrics raises with the first run's error, if any, and otherwise with the second's |
| InputReader.UrlsFromLines | crux_api_analyzer.py:32 | the definition of `[line.strip() for line in f if line.strip()]`; `UrlsAppend`, `UrlsWellFormed`, `BlankLineSkipped`, `TextLineKept`, `UrlsCount` and `UrlsIdempotent` state its properties |
| InputReader.ReadUrls | crux_api_analyzer.py:26-33 | the definition of the suffix dispatch: `.txt` gives `UrlsFromLines(lines)`, `.csv` the `url` column or KeyError('url'), any other suffix ValueError; the `UrlsFromLines` lemmas and `Pipeline.BadInputFailsFirst` state its properties |
| InputReader.UrlsAppend | crux_api_analyzer.py:32 | the URLs of two consecutive parts of the file are those of each part, in order |
| InputReader.UrlsWellFormed | crux_api_analyzer.py:32 | every URL read is non-empty and has no leading or trailing whitespace |
| InputReader.UrlsOfLine | crux_api_analyzer.py:32 | a line yields nothing when it is all whitespace, and its stripped text otherwise |
| InputReader.BlankLineSkipped | crux_api_analyzer.py:32 | a blank line anywhere changes nothing |
| InputReader.TextLineKept | crux_api_analyzer.py:32 | a non-blank line contributes its stripped text at its own position |
| InputReader.UrlsCount | crux_api_analyzer.py:32 | there are never more URLs than lines |
| InputReader.UrlsIdempotent | crux_api_analyzer.py:32 | reading the URLs read gives them back unchanged |
| InputReader.UrlsExample | crux_api_analyzer.py:32 | `"  u\n"`, `"\n"`, `"v\n"` read as `[u, v]` for any trimmed non-empty u and v |
| Orchestrator.Accumulate | crux_api_analyzer.py:156-186 | the definition of the two accumulators after a run of outcomes, a success appending to both and an exception to neither; `AccumulateAppend`, `FailureSkipped`, `SuccessKept` and `SecondOfThreeFails` state its properties |
| Orchestrator.Outcomes | crux_api_analyzer.py:156-163 | the definition of the per-URL outcomes, that URL's `try` block applied to its reply; `CollectedSucceeded` states their properties |
| Orchestrator.Collected | crux_api_analyzer.py:156-186 | the definition of the accumulators once every URL is processed; `Analyze`, `CollectedSucceeded`, `CollectedParallel` and `UrlColumnsAgree` state its properties |
| Orchestrator.Succeeded | crux_api_analyzer.py:156-186 | the definition of the URLs whose analysis raises nothing, in input order; `CollectedSucceeded` ties it to the accumulators |
| Orchestrator.AnalyzeUrl | crux_api_analyzer.py:157-163 | one URL succeeds iff the query returns and the performance shaping does not raise; a failed transfer raises; on success it yields the shaped entry and the raw row of the response |
| Orchestrator.Analyze | crux_api_analyzer.py:156-186 | the loop's two accumulators are exactly `Collected(urls)`, one entry each per succeeding URL, equally long |
| Orchestrator.CollectedSucceeded | crux_api_analyzer.py:156-186 | the accumulators hold, in input order, the results of exactly the URLs that succeed |
| Orchestrator.AccumulateAppend | crux_api_analyzer.py:156-163 | processing two runs of URLs in turn appends their results |
| Orchestrator.FailureSkipped | crux_api_analyzer.py:184-186 | a URL that raises leaves no trace in either accumulator, wherever it stands |
| Orchestrator.SuccessKept | crux_api_analyzer.py:162-163 | a succeeding URL adds its two results between those of the URLs around it |
| Orchestrator.SecondOfThreeFails | crux_api_analyzer.py:156-186 | when the second of three URLs fails, the results are the first's and the third's |
| Orchestrator.ApiErrorShaped | crux_api_analyzer.py:62-73 | a response carrying an `error` object is kept or skipped exactly as its shaping decides, and when kept yields its shaped entry and raw row |
| Orchestrator.ApiErrorCollected | crux_api_analyzer.py:158-163 | a response with an `error` object and no record succeeds with an empty performance entry and a row of only the two URL columns |
| Orchestrator.CollectedParallel | crux_api_analyzer.py:159-162 | every performance entry `main` collects has six lists of equal length |
| Orchestrator.UrlColumnsAgree | crux_api_analyzer.py:159-163 | the i-th raw row's `url` column equals the i-th performance entry's `URL` |
| Flatten.RowAt | crux_api_analyzer.py:189-196 | the definition of one row built from position i of the six lists, the rating as its text |
| Flatten.FlattenRows | crux_api_analyzer.py:189-201 | the definition of the nested comprehension, entry after entry; `FlattenAppend`, `FlattenCount`, `FlattenAt` and `EmptyEntryNoRows` state its properties |
| Flatten.MetricCount | crux_api_analyzer.py:197-201 | the definition of the number of metrics over all entries; `FlattenCount` relates it to the rows |
| Flatten.Shortest | crux_api_analyzer.py:198-201 | `zip` runs to the shortest of the six lists: no longer than any and equal to one of them, hence the metric count when the lists are parallel |
| Flatten.Zipped | crux_api_analyzer.py:198-201 | one entry yields as many rows as its shortest list |
| Flatten.FlattenAppend | crux_api_analyzer.py:189-197 | the rows of two runs of entries are those of each run, in order |
| Flatten.FlattenCount | crux_api_analyzer.py:189-201 | with parallel lists, the row count is the sum of the per-URL metric counts |
| Flatten.FlattenAt | crux_api_analyzer.py:189-201 | metric j of entry k is row (metrics of entries before k) + j, carrying entry k's URL and metric j's values, the rating as its text: rows are grouped by URL, then metric |
| Flatten.ZipUnzip | crux_api_analyzer.py:189-201 | zipping the lists the performance shaper builds gives back its entries, one row each |
| Flatten.PerformanceTableRows | crux_api_analyzer.py:189-201 | the performance table built from `main`'s accumulator has exactly one row per metric of every succeeding URL |
| Flatten.EmptyEntryNoRows | crux_api_analyzer.py:197-201 | an entry without metrics contributes no row |
| CruxResponse.MetricsOf | crux_api_analyzer.py:76 | the definition of `data.get('record', {}).get('metrics', {})` |
| CruxResponse.OriginalUrl | crux_api_analyzer.py:77 | the definition of `data.get('urlNormalizationDetails', {}).get('originalUrl', '')`; `ExtractPerformanceData` and `RawRowUrls` state where it lands |
| CruxResponse.NormalizedUrl | crux_api_analyzer.py:121 | the definition of `...get('normalizedUrl', '')`; `RawRowUrls` states where it lands |
| CruxResponse.MetricNamed | crux_api_analyzer.py:128 | the definition of `metrics.get(metric_name, {})`; `FixedColumnsStep` and `RawRowP75` use it |
| OrderedDict.Lookup | crux_api_analyzer.py:128 | `d.get(k)` finds a value iff k is a key |
| OrderedDict.Insert | crux_api_analyzer.py:132 | the definition of `d[k] = v`, replacing k's entry in place when k is a key and appending otherwise; `InsertLookup` and `InsertInPlace` state its properties |
| OrderedDict.InsertInPlace | crux_api_analyzer.py:132 | assigning an existing key keeps every position and changes only that key's value |
| OrderedDict.InsertLookup | crux_api_analyzer.py:132 | after `d[k] = v`, looking up k gives v and every other key keeps its value |
| OrderedDict.InsertAll | crux_api_analyzer.py:132-144 | the definition of a run of `d[k] = v` in order; `InsertAllAppend` and `InsertAllFresh` state its properties |
| OrderedDict.InsertAllFresh | crux_api_analyzer.py:119-144 | inserting columns whose keys never repeat appends them in order |
| Strings.Decimal | crux_api_analyzer.py:137 | `str(idx)` is a non-empty digit string with no leading zero |
| Strings.DecimalRoundTrip | crux_api_analyzer.py:137 | `int(str(n)) == n` |
| Strings.DecimalInjective | crux_api_analyzer.py:137 | different bucket indices are written differently |
| Strings.IsSpace | crux_api_analyzer.py:32 | the definition of the characters `str.isspace()` accepts, which `strip()` removes |
| Strings.TrimLeft | crux_api_analyzer.py:32 | the definition of `lstrip()`; `TrimLeftSuffix`, `TrimLeftRemovesSpace` and `TrimLeftStops` state its properties |
| Strings.TrimRight | crux_api_analyzer.py:32 | the definition of `rstrip()`; `TrimRightPrefix`, `TrimRightRemovesSpace` and `TrimRightStops` state its properties |
| Strings.Strip | crux_api_analyzer.py:32 | the definition of `strip()`; `StripShape`, `StripUnique`, `StripIdempotent` and `StripEmpty` state its properties |
| Strings.TrimLeftSuffix | crux_api_analyzer.py:32 | `lstrip()` leaves a suffix of the string |
| Strings.TrimLeftRemovesSpace | crux_api_analyzer.py:32 | what `lstrip()` removes is all whitespace |
| Strings.TrimLeftStops | crux_api_analyzer.py:32 | `lstrip()` stops at the first character that is not whitespace |
| Strings.TrimRightPrefix | crux_api_analyzer.py:32 | `rstrip()` leaves a prefix of the string |
| Strings.TrimRightRemovesSpace | crux_api_analyzer.py:32 | what `rstrip()` removes is all whitespace |
| Strings.TrimRightStops | crux_api_analyzer.py:32 | `rstrip()` stops at the last character that is not whitespace |
| Strings.StripShape | crux_api_analyzer.py:32 | `s.strip()` is a slice of s with no whitespace at either end |
| Strings.StripUnique | crux_api_analyzer.py:32 | stripping whitespace + trimmed core + whitespace gives the core |
| Strings.StripIdempotent | crux_api_analyzer.py:32 | stripping twice is stripping once |
| Strings.StripEmpty | crux_api_analyzer.py:32 | a line strips to '' iff it is all whitespace |
| Pipeline.RunAnalysis | crux_api_analyzer.py:148-205 | `main` fails exactly when `read_urls` raises, with its exception; otherwise the performance table is `FlattenRows(Collected(urls).perf)` and the raw table `Collected(urls).raw` |
| Pipeline.BadInputFailsFirst | crux_api_analyzer.py:26-33 | an unsupported suffix raises ValueError and a `.csv` without `url` raises KeyError('url') before any URL is queried, whatever the API would reply |
| Pipeline.TextFileTables | crux_api_analyzer.py:148-201 | for a `.txt` file the performance table has one row per metric of each succeeding URL read, and the raw table one row per such URL |

## Left out

- The HTTP POST, its headers, the 30-second timeout and JSON decoding (lines 35–59) are not modelled. They are foreign I/O. Their outcome is the input `Reply`: a decoded response, or `Failed` for any exception raised there.
- Loading `.env` and the API key (lines 12–15) is not modelled. It is environment access.
- Reading the `.csv` input with pandas (line 29) is not modelled. It is a foreign library call. The `url` column it would produce is the `csvColumn` parameter of `ReadUrls`.
- Writing the two DataFrames to CSV (lines 202–205) is not modelled. This includes pandas' union of the raw rows' differing columns. It is a foreign library call. The model stops at the list of performance rows and the list of raw rows.
- Console printing is not modelled. This covers lines 60–66, 153–154, 166–182 and 207–210, with the `.1f` and `ms` formatting. It is output only. The printing in lines 68–71 is kept because it can raise: `ReportClient.PrintP75s`. The display loop at lines 176–182 indexes lists that are parallel, so it raises no `IndexError` or `KeyError`; apart from the encoding errors below, leaving it out changes no outcome.
- Console encoding errors are not modelled. If standard output cannot encode the `─`, `📊` or `❌` characters, the prints at lines 166, 167, 182 or 185 raise `UnicodeEncodeError`; the model assumes every print succeeds.
- Command-line handling (lines 212–217) is not modelled. It is process I/O.
- Opening and decoding the `.txt` file (line 31) is not modelled. In the code, its I/O errors end `main`; they are outside the model, where `ReadUrls` on `.txt` always succeeds.
- `Path(...).suffix` (line 27) is not modelled. The suffix is a parameter of `ReadUrls`.
- Splitting a `.txt` file into lines is not modelled. The reader takes the lines the file iterator yields, each still ending in its newline.
- Classifier.Classify: `float(str(p75))` on strings is the abstract `parse`. Python's decimal spelling of numbers and `float`'s string grammar are not modelled, and finite floats are exact reals, so IEEE rounding is not modelled.
- PerformanceShaper.ShapeEntry: `density * 100` is exact real multiplication. IEEE rounding of the product is not modelled.
- JSON of unexpected types is not modelled: a histogram that is not a list, a density that is a string, `metrics` that is not an object. The exceptions these would raise are outside the model, because the response follows the API's schema.
- Orchestrator.Analyze: the API is a function `api: string -> Reply`, so a URL listed twice gets the same reply both times. Differing replies over time are not modelled.
- The orchestrator examples are stated over outcomes (`SecondOfThreeFails`) and over a generic error response (`ApiErrorCollected`), not over concrete JSON documents.
