/** `main`'s loop over the URLs: query, shape, and append to the two accumulators, skipping a
    URL whose query or shaping raises. */
module Orchestrator {
  import opened Wrappers
  import opened CruxResponse
  import opened Classifier
  import opened ReportClient
  import opened PerformanceShaper
  import opened RawShaper
  import opened RawRow

  /** The two accumulators `performance_results` and `raw_results`. */
  datatype Results = Results(perf: seq<PerformanceData>, raw: seq<seq<(string, Scalar)>>)

  /** The body of the `try` for one URL: what it appends, or the exception that skips it. */
  function AnalyzeUrl(reply: Reply, parse: string -> Option<Float>): (r: Result<(PerformanceData, seq<(string, Scalar)>), Error>)
    ensures reply.Failed? ==> r == Err(TransportError)
    ensures r.Ok? <==> QueryCrux(reply).Ok? && Shape(QueryCrux(reply).value, parse).Ok?
    ensures r.Ok? ==> r.value == (Shape(reply.data, parse).value, RawColumns(reply.data))
  {
    var data :- QueryCrux(reply);
    var perf :- Shape(data, parse);
    Ok((perf, RawColumns(data)))
  }

  /** What the `try` for one URL ends in. */
  type Outcome = Result<(PerformanceData, seq<(string, Scalar)>), Error>

  /** The accumulators after URLs with outcomes `outcomes`: a success appends to both, an
      exception to neither. */
  function Accumulate(outcomes: seq<Outcome>): Results {
    if outcomes == [] then Results([], [])
    else
      var prev := Accumulate(outcomes[..|outcomes| - 1]);
      match outcomes[|outcomes| - 1]
      case Ok((p, r)) => Results(prev.perf + [p], prev.raw + [r])
      case Err(_) => prev
  }

  /** The outcome of every URL; `api(url)` is what the query for `url` receives. */
  function Outcomes(urls: seq<string>, api: string -> Reply, parse: string -> Option<Float>): (os: seq<Outcome>)
    ensures |os| == |urls|
    ensures forall i :: 0 <= i < |urls| ==> os[i] == AnalyzeUrl(api(urls[i]), parse)
  {
    seq(|urls|, i requires 0 <= i < |urls| => AnalyzeUrl(api(urls[i]), parse))
  }

  /** The accumulators once every URL has been processed. */
  function Collected(urls: seq<string>, api: string -> Reply, parse: string -> Option<Float>): Results {
    Accumulate(Outcomes(urls, api, parse))
  }

  /** The URLs whose analysis raises nothing, in input order. */
  function Succeeded(urls: seq<string>, api: string -> Reply, parse: string -> Option<Float>): seq<string> {
    if urls == [] then []
    else
      var url := urls[|urls| - 1];
      Succeeded(urls[..|urls| - 1], api, parse) + if AnalyzeUrl(api(url), parse).Ok? then [url] else []
  }

  /** The loop of `main`, URL by URL. */
  method Analyze(urls: seq<string>, api: string -> Reply, parse: string -> Option<Float>)
    returns (perf: seq<PerformanceData>, raw: seq<Row>)
    ensures Results(perf, raw) == Collected(urls, api, parse)
    ensures |perf| == |raw| == |Succeeded(urls, api, parse)|
  {
    ghost var os := Outcomes(urls, api, parse);
    perf, raw := [], [];
    var i := 0;
    while i < |urls|
      invariant 0 <= i <= |urls|
      invariant Results(perf, raw) == Accumulate(os[..i])
    {
      var url := urls[i];
      assert os[..i + 1][..i] == os[..i];
      var data := QueryCrux(api(url));
      if data.Ok? {
        var p := ExtractPerformanceData(data.value, parse);
        if p.Ok? {
          var row := ExtractRawMetrics(data.value);
          perf := perf + [p.value];
          raw := raw + [row];
        }
      }
      i := i + 1;
    }
    assert os[..i] == os;
    CollectedSucceeded(urls, api, parse);
  }

  lemma OutcomesPrefix(urls: seq<string>, n: nat, api: string -> Reply, parse: string -> Option<Float>)
    requires n <= |urls|
    ensures Outcomes(urls[..n], api, parse) == Outcomes(urls, api, parse)[..n]
  {
  }

  /** Each accumulator holds exactly one entry per succeeding URL, in input order: the shaped
      response of that URL. */
  lemma {:induction false} CollectedSucceeded(urls: seq<string>, api: string -> Reply, parse: string -> Option<Float>)
    ensures var c := Collected(urls, api, parse);
            var ok := Succeeded(urls, api, parse);
            |c.perf| == |ok| && |c.raw| == |ok| &&
            forall i :: 0 <= i < |ok| ==> AnalyzeUrl(api(ok[i]), parse) == Ok((c.perf[i], c.raw[i]))
  {
    if urls != [] {
      var n := |urls| - 1;
      CollectedSucceeded(urls[..n], api, parse);
      OutcomesPrefix(urls, n, api, parse);
      var os := Outcomes(urls, api, parse);
      assert os[..|os| - 1] == Outcomes(urls[..n], api, parse);
    }
  }

  /** Processing two runs of URLs one after the other appends their results. */
  lemma {:induction false} AccumulateAppend(a: seq<Outcome>, b: seq<Outcome>)
    ensures var ca, cb := Accumulate(a), Accumulate(b);
            Accumulate(a + b) == Results(ca.perf + cb.perf, ca.raw + cb.raw)
    decreases |b|
  {
    if b == [] {
      assert a + b == a;
    } else {
      var n := |b| - 1;
      assert (a + b)[..|a + b| - 1] == a + b[..n];
      assert (a + b)[|a + b| - 1] == b[n];
      AccumulateAppend(a, b[..n]);
    }
  }

  /** A URL whose query or shaping raises leaves no trace in either accumulator. */
  lemma FailureSkipped(a: seq<Outcome>, o: Outcome, b: seq<Outcome>)
    requires o.Err?
    ensures Accumulate(a + [o] + b) == Accumulate(a + b)
  {
    AccumulateAppend(a + [o], b);
    AccumulateAppend(a, [o]);
    AccumulateAppend(a, b);
    assert [o][..0] == [];
  }

  /** A succeeding URL adds its two results between those of the URLs before and after it. */
  lemma SuccessKept(a: seq<Outcome>, o: Outcome, b: seq<Outcome>)
    requires o.Ok?
    ensures var ca, cb := Accumulate(a), Accumulate(b);
            Accumulate(a + [o] + b) == Results(ca.perf + [o.value.0] + cb.perf, ca.raw + [o.value.1] + cb.raw)
  {
    AccumulateAppend(a + [o], b);
    AccumulateAppend(a, [o]);
    assert [o][..0] == [];
  }

  /** When the second of three URLs fails, the results are those of the first and the third. */
  lemma SecondOfThreeFails(o1: Outcome, o2: Outcome, o3: Outcome)
    requires o1.Ok? && o2.Err? && o3.Ok?
    ensures Accumulate([o1, o2, o3]) == Results([o1.value.0, o3.value.0], [o1.value.1, o3.value.1])
  {
    FailureSkipped([o1], o2, [o3]);
    assert [o1] + [o2] + [o3] == [o1, o2, o3];
    SuccessKept([], o1, [o3]);
    assert [] + [o1] + [o3] == [o1] + [o3];
    assert [o3][..0] == [];
  }

  /** The `error` object only changes what is printed: a response carrying one is shaped like
      any other, so its `record`, if it has one, decides whether the URL is kept. */
  lemma ApiErrorShaped(d: Response, parse: string -> Option<Float>)
    requires d.error.Some?
    ensures AnalyzeUrl(Received(d), parse).Ok? <==> Shape(d, parse).Ok?
    ensures Shape(d, parse).Ok? ==> AnalyzeUrl(Received(d), parse) == Ok((Shape(d, parse).value, RawColumns(d)))
  {
    assert QueryCrux(Received(d)) == Ok(d);
  }

  /** A response carrying an API `error` object is not skipped: lacking a `record`, it adds a
      performance entry with no metrics and a row holding only the two URL columns. */
  lemma ApiErrorCollected(d: Response, parse: string -> Option<Float>)
    requires d.error.Some? && d.record.None?
    ensures AnalyzeUrl(Received(d), parse)
            == Ok((PerformanceData(OriginalUrl(d), [], [], [], [], [], []), BaseColumns(d)))
  {
    assert QueryCrux(Received(d)) == Ok(d);
    assert MetricsOf(d) == [];
    var none := Unzip(OriginalUrl(d), []);
    assert none == PerformanceData(OriginalUrl(d), [], [], [], [], [], []);
    assert Shape(d, parse) == Ok(none);
    FixedColumnsOfNothing(RequestedMetrics);
    assert FormFactorColumns([]) == [];
    assert RawColumns(d) == BaseColumns(d) + [] + [];
    assert BaseColumns(d) + [] + [] == BaseColumns(d);
  }

  lemma {:induction false} FixedColumnsOfNothing(names: seq<string>)
    ensures FixedColumns([], names) == []
  {
    if names != [] {
      FixedColumnsOfNothing(names[..|names| - 1]);
      var name := names[|names| - 1];
      assert MetricNamed([], name) == NoMetric;
    }
  }

  /** Every collected performance entry has six lists of one length, as many as its metrics. */
  lemma CollectedParallel(urls: seq<string>, api: string -> Reply, parse: string -> Option<Float>)
    ensures var c := Collected(urls, api, parse);
            forall i :: 0 <= i < |c.perf| ==> Parallel(c.perf[i])
  {
    var c := Collected(urls, api, parse);
    var ok := Succeeded(urls, api, parse);
    CollectedSucceeded(urls, api, parse);
    forall i | 0 <= i < |c.perf|
      ensures Parallel(c.perf[i])
    {
      ShapeFollowsMetrics(api(ok[i]).data, parse);
    }
  }

  /** The i-th performance entry and the i-th raw row come from the same URL: the row's first
      column is the entry's `URL`. */
  lemma UrlColumnsAgree(urls: seq<string>, api: string -> Reply, parse: string -> Option<Float>)
    ensures var c := Collected(urls, api, parse);
            |c.perf| == |c.raw| &&
            forall i :: 0 <= i < |c.perf| ==> |c.raw[i]| >= 2 && c.raw[i][0] == ("url", Str(c.perf[i].url))
  {
    var c := Collected(urls, api, parse);
    var ok := Succeeded(urls, api, parse);
    CollectedSucceeded(urls, api, parse);
    forall i | 0 <= i < |c.perf|
      ensures |c.raw[i]| >= 2 && c.raw[i][0] == ("url", Str(c.perf[i].url))
    {
      var d := api(ok[i]).data;
      RawRowUrls(d);
    }
  }
}
