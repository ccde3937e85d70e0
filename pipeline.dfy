/** `main` end to end: read the URLs, run the per-URL loop, flatten the performance results. */
module Pipeline {
  import opened Wrappers
  import opened CruxResponse
  import opened Classifier
  import opened ReportClient
  import opened InputReader
  import opened Orchestrator
  import opened Flatten

  /** The two tables `main` writes: the performance rows and the raw rows, or the exception
      `read_urls` raises before any URL is queried (it is not caught). The input file is given
      by its suffix, its lines and, for a `.csv` file, its `url` column. */
  function RunAnalysis(suffix: string, lines: seq<string>, csvColumn: Option<seq<string>>,
                       api: string -> Reply, parse: string -> Option<Float>): (r: Result<(seq<PerfRow>, seq<seq<(string, Scalar)>>), Error>)
    ensures r.Err? <==> ReadUrls(suffix, lines, csvColumn).Err?
    ensures r.Err? ==> r.error == ReadUrls(suffix, lines, csvColumn).error
    ensures r.Ok? ==> var c := Collected(ReadUrls(suffix, lines, csvColumn).value, api, parse);
                      r.value == (FlattenRows(c.perf), c.raw)
  {
    var urls :- ReadUrls(suffix, lines, csvColumn);
    var c := Collected(urls, api, parse);
    Ok((FlattenRows(c.perf), c.raw))
  }

  /** An input file that is neither `.csv` nor `.txt`, or a `.csv` file without a `url`
      column, fails before any reply is consulted: the outcome is the same for every API. */
  lemma BadInputFailsFirst(suffix: string, lines: seq<string>, csvColumn: Option<seq<string>>,
                           api1: string -> Reply, api2: string -> Reply, parse: string -> Option<Float>)
    requires (suffix != ".csv" && suffix != ".txt") || (suffix == ".csv" && csvColumn.None?)
    ensures RunAnalysis(suffix, lines, csvColumn, api1, parse).Err?
    ensures RunAnalysis(suffix, lines, csvColumn, api1, parse) == RunAnalysis(suffix, lines, csvColumn, api2, parse)
    ensures suffix == ".csv" ==> RunAnalysis(suffix, lines, csvColumn, api1, parse) == Err(KeyError("url"))
    ensures suffix != ".csv" ==> RunAnalysis(suffix, lines, csvColumn, api1, parse) == Err(ValueError)
  {
  }

  /** For a `.txt` file, the performance table has one row per metric of every URL read from
      a non-blank line whose analysis succeeds, and one raw row per such URL. */
  lemma TextFileTables(lines: seq<string>, api: string -> Reply, parse: string -> Option<Float>)
    ensures var r := RunAnalysis(".txt", lines, None, api, parse);
            var urls := UrlsFromLines(lines);
            var c := Collected(urls, api, parse);
            && r.Ok?
            && |r.value.0| == MetricCount(c.perf)
            && |r.value.1| == |Succeeded(urls, api, parse)|
  {
    var urls := UrlsFromLines(lines);
    PerformanceTableRows(urls, api, parse);
    CollectedSucceeded(urls, api, parse);
  }
}
