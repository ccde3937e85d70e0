/** The rows of the performance table: every performance entry's parallel lists zipped
    together, entry after entry. */
module Flatten {
  import opened Wrappers
  import opened CruxResponse
  import opened Classifier
  import opened PerformanceShaper
  import opened ReportClient
  import opened Orchestrator

  /** One row: `URL`, `Metric`, `P75 Value`, `Rating`, `Good %`, `Needs Improvement %`, `Poor %`.
      The `Rating` cell holds the rating's text, as the list the shaper filled does. */
  datatype PerfRow = PerfRow(
    url: string, metric: string, p75: Scalar, rating: string,
    good: real, needsImprovement: real, poor: real)

  function Min(a: nat, b: nat): nat {
    if a <= b then a else b
  }

  /** `zip` stops at the shortest of the six lists: the least of their lengths. */
  function Shortest(d: PerformanceData): (n: nat)
    ensures n <= |d.metric| && n <= |d.p75| && n <= |d.rating|
    ensures n <= |d.good| && n <= |d.needsImprovement| && n <= |d.poor|
    ensures n == |d.metric| || n == |d.p75| || n == |d.rating|
            || n == |d.good| || n == |d.needsImprovement| || n == |d.poor|
    ensures Parallel(d) ==> n == |d.metric|
  {
    Min(Min(Min(|d.metric|, |d.p75|), Min(|d.rating|, |d.good|)), Min(|d.needsImprovement|, |d.poor|))
  }

  function RowAt(d: PerformanceData, i: nat): PerfRow
    requires i < Shortest(d)
  {
    PerfRow(d.url, d.metric[i], d.p75[i], d.rating[i].Label(), d.good[i], d.needsImprovement[i], d.poor[i])
  }

  /** The inner `for ... in zip(...)` for one entry. */
  function Zipped(d: PerformanceData): (rows: seq<PerfRow>)
    ensures |rows| == Shortest(d)
  {
    seq(Shortest(d), i requires 0 <= i < Shortest(d) => RowAt(d, i))
  }

  /** The whole comprehension: the entries in order, each contributing its zipped rows. */
  function FlattenRows(results: seq<PerformanceData>): seq<PerfRow> {
    if results == [] then []
    else FlattenRows(results[..|results| - 1]) + Zipped(results[|results| - 1])
  }

  /** The number of metrics over all entries. */
  function MetricCount(results: seq<PerformanceData>): nat {
    if results == [] then 0
    else MetricCount(results[..|results| - 1]) + |results[|results| - 1].metric|
  }

  lemma {:induction false} FlattenAppend(a: seq<PerformanceData>, b: seq<PerformanceData>)
    ensures FlattenRows(a + b) == FlattenRows(a) + FlattenRows(b)
    decreases |b|
  {
    if b == [] {
      assert a + b == a;
    } else {
      var n := |b| - 1;
      assert (a + b)[..|a + b| - 1] == a + b[..n];
      assert (a + b)[|a + b| - 1] == b[n];
      assert FlattenRows(a + b) == FlattenRows(a + b[..n]) + Zipped(b[n]);
      FlattenAppend(a, b[..n]);
      assert FlattenRows(b) == FlattenRows(b[..n]) + Zipped(b[n]);
    }
  }

  /** With parallel lists, there is one row per metric of every entry. */
  lemma {:induction false} FlattenCount(results: seq<PerformanceData>)
    requires forall m :: 0 <= m < |results| ==> Parallel(results[m])
    ensures |FlattenRows(results)| == MetricCount(results)
  {
    if results != [] {
      FlattenCount(results[..|results| - 1]);
    }
  }

  /** Rows are grouped by entry, then by metric: metric `j` of entry `k` is row
      `MetricCount(results[..k]) + j` and carries that entry's `URL`. */
  lemma {:induction false} FlattenAt(results: seq<PerformanceData>, k: nat, j: nat)
    requires forall m :: 0 <= m < |results| ==> Parallel(results[m])
    requires k < |results| && j < |results[k].metric|
    ensures Parallel(results[k])
    ensures MetricCount(results[..k]) + j < |FlattenRows(results)|
    ensures FlattenRows(results)[MetricCount(results[..k]) + j]
            == PerfRow(results[k].url, results[k].metric[j], results[k].p75[j], results[k].rating[j].Label(),
                       results[k].good[j], results[k].needsImprovement[j], results[k].poor[j])
  {
    var before, rest := results[..k], results[k + 1..];
    assert results == before + [results[k]] + rest;
    FlattenAppend(before + [results[k]], rest);
    FlattenAppend(before, [results[k]]);
    assert [results[k]][..0] == [];
    assert FlattenRows([results[k]]) == [] + Zipped(results[k]);
    FlattenCount(before);
    assert FlattenRows(results)[|FlattenRows(before)| + j] == Zipped(results[k])[j];
  }

  /** Zipping the lists `extract_performance_data` built gives back its entries, one row each. */
  lemma ZipUnzip(url: string, entries: seq<Entry>)
    ensures Zipped(Unzip(url, entries))
            == seq(|entries|, i requires 0 <= i < |entries| =>
                 PerfRow(url, entries[i].metric, entries[i].p75, entries[i].rating.Label(),
                         entries[i].good, entries[i].needsImprovement, entries[i].poor))
  {
  }

  /** An entry with no metrics, as for an API error, contributes no row. */
  lemma EmptyEntryNoRows(a: seq<PerformanceData>, d: PerformanceData, b: seq<PerformanceData>)
    requires d.metric == []
    ensures FlattenRows(a + [d] + b) == FlattenRows(a + b)
  {
    FlattenAppend(a + [d], b);
    FlattenAppend(a, [d]);
    FlattenAppend(a, b);
    assert [d][..0] == [];
  }

  /** The performance table `main` writes has one row per metric of every URL that succeeded. */
  lemma PerformanceTableRows(urls: seq<string>, api: string -> Reply, parse: string -> Option<Float>)
    ensures |FlattenRows(Collected(urls, api, parse).perf)| == MetricCount(Collected(urls, api, parse).perf)
  {
    CollectedParallel(urls, api, parse);
    FlattenCount(Collected(urls, api, parse).perf);
  }
}
