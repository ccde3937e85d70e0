/** `extract_performance_data`: one line per metric that has both `percentiles` and
    `histogram`, kept as six parallel lists. */
module PerformanceShaper {
  import opened Wrappers
  import opened OrderedDict
  import opened CruxResponse
  import opened Classifier

  /** What the loop appends for one metric, one field per list. */
  datatype Entry = Entry(
    metric: string, p75: Scalar, rating: Rating,
    good: real, needsImprovement: real, poor: real)

  /** The dict the function returns: `URL` and the lists `Metric`, `P75 Value`, `Rating`,
      `Good %`, `Needs Improvement %` and `Poor %`. */
  datatype PerformanceData = PerformanceData(
    url: string,
    metric: seq<string>,
    p75: seq<Scalar>,
    rating: seq<Rating>,
    good: seq<real>,
    needsImprovement: seq<real>,
    poor: seq<real>)

  /** All six lists have the same length. */
  predicate Parallel(d: PerformanceData) {
    && |d.p75| == |d.metric|
    && |d.rating| == |d.metric|
    && |d.good| == |d.metric|
    && |d.needsImprovement| == |d.metric|
    && |d.poor| == |d.metric|
  }

  /** The guard of line 90. */
  predicate Eligible(m: MetricData) {
    m.percentiles.Some? && m.histogram.Some?
  }

  /** `histogram[i]['density']`. */
  function DensityAt(h: seq<Bucket>, i: nat): Result<real, Error> {
    if i >= |h| then Err(IndexError)
    else if h[i].density.None? then Err(KeyError("density"))
    else Ok(h[i].density.value)
  }

  /** The body of the loop for one eligible metric, with the exceptions it can raise in the
      order the code meets them: a missing `p75`, a missing bucket or `density`, a p75 that does
      not parse as a float. The percentages are the densities of buckets 0, 1 and 2 times 100. */
  function ShapeEntry(name: string, m: MetricData, parse: string -> Option<Float>): (r: Result<Entry, Error>)
    requires Eligible(m)
    ensures var p75 := m.percentiles.value.p75; var h := m.histogram.value;
            r.Ok? <==> && p75.Some? && |h| >= 3
                       && h[0].density.Some? && h[1].density.Some? && h[2].density.Some?
                       && Classify(name, p75.value, parse).Ok?
    ensures m.percentiles.value.p75.None? ==> r == Err(KeyError("p75"))
    ensures |m.histogram.value| < 3 ==> r.Err?
    ensures var h := m.histogram.value;
            r.Ok? ==> && r.value.metric == name
                      && r.value.p75 == m.percentiles.value.p75.value
                      && r.value.rating == Classify(name, r.value.p75, parse).value
                      && r.value.good == 100.0 * h[0].density.value
                      && r.value.needsImprovement == 100.0 * h[1].density.value
                      && r.value.poor == 100.0 * h[2].density.value
  {
    var pct := m.percentiles.value;
    if pct.p75.None? then Err(KeyError("p75"))
    else
      var p75 := pct.p75.value;
      var h := m.histogram.value;
      var d0 :- DensityAt(h, 0);
      var d1 :- DensityAt(h, 1);
      var d2 :- DensityAt(h, 2);
      var rating :- Classify(name, p75, parse);
      Ok(Entry(name, p75, rating, d0 * 100.0, d1 * 100.0, d2 * 100.0))
  }

  /** The metrics the loop keeps, in iteration order. */
  function Selected(metrics: seq<(string, MetricData)>): (s: seq<(string, MetricData)>)
    ensures |s| <= |metrics|
    ensures forall k :: 0 <= k < |s| ==> Eligible(s[k].1)
  {
    if metrics == [] then []
    else
      var last := metrics[|metrics| - 1];
      Selected(metrics[..|metrics| - 1]) + if Eligible(last.1) then [last] else []
  }

  /** What the loop has appended after the metrics `metrics`, or the exception it raised. */
  function EntriesOf(metrics: seq<(string, MetricData)>, parse: string -> Option<Float>): Result<seq<Entry>, Error> {
    if metrics == [] then Ok([])
    else
      var entries :- EntriesOf(metrics[..|metrics| - 1], parse);
      var last := metrics[|metrics| - 1];
      if Eligible(last.1) then
        var e :- ShapeEntry(last.0, last.1, parse);
        Ok(entries + [e])
      else Ok(entries)
  }

  function Column<A, B>(s: seq<A>, f: A -> B): (r: seq<B>)
    ensures |r| == |s|
    ensures forall i :: 0 <= i < |s| ==> r[i] == f(s[i])
  {
    seq(|s|, i requires 0 <= i < |s| => f(s[i]))
  }

  /** The entries laid out as the six parallel lists of the returned dict. */
  function Unzip(url: string, entries: seq<Entry>): PerformanceData {
    PerformanceData(
      url,
      Column(entries, (e: Entry) => e.metric),
      Column(entries, (e: Entry) => e.p75),
      Column(entries, (e: Entry) => e.rating),
      Column(entries, (e: Entry) => e.good),
      Column(entries, (e: Entry) => e.needsImprovement),
      Column(entries, (e: Entry) => e.poor))
  }

  /** The value `extract_performance_data(data)` returns, or the exception it raises. */
  function Shape(data: Response, parse: string -> Option<Float>): Result<PerformanceData, Error> {
    var entries :- EntriesOf(MetricsOf(data), parse);
    Ok(Unzip(OriginalUrl(data), entries))
  }

  lemma UnzipSnoc(url: string, entries: seq<Entry>, e: Entry)
    ensures var d := Unzip(url, entries);
            Unzip(url, entries + [e]) == PerformanceData(
              url, d.metric + [e.metric], d.p75 + [e.p75], d.rating + [e.rating],
              d.good + [e.good], d.needsImprovement + [e.needsImprovement], d.poor + [e.poor])
  {
    var d := Unzip(url, entries);
    var d' := Unzip(url, entries + [e]);
    assert d'.metric == d.metric + [e.metric];
    assert d'.p75 == d.p75 + [e.p75];
    assert d'.rating == d.rating + [e.rating];
    assert d'.good == d.good + [e.good];
    assert d'.needsImprovement == d.needsImprovement + [e.needsImprovement];
    assert d'.poor == d.poor + [e.poor];
  }

  /** Once the loop has raised, the result is that exception whatever follows. */
  lemma {:induction false} EntriesErrPersists(metrics: seq<(string, MetricData)>, j: nat, parse: string -> Option<Float>)
    requires j <= |metrics| && EntriesOf(metrics[..j], parse).Err?
    ensures EntriesOf(metrics, parse) == EntriesOf(metrics[..j], parse)
    decreases |metrics|
  {
    if j < |metrics| {
      var init := metrics[..|metrics| - 1];
      assert init[..j] == metrics[..j];
      EntriesErrPersists(init, j, parse);
    } else {
      assert metrics[..j] == metrics;
    }
  }

  /** The performance loop, appending to six lists in place. */
  method ExtractPerformanceData(data: Response, parse: string -> Option<Float>) returns (r: Result<PerformanceData, Error>)
    ensures r == Shape(data, parse)
    ensures r.Ok? ==> Parallel(r.value) && |r.value.metric| == |Selected(MetricsOf(data))|
    ensures r.Ok? ==> r.value.url == OriginalUrl(data)
  {
    var metrics := MetricsOf(data);
    var url := OriginalUrl(data);
    var names: seq<string> := [];
    var p75s: seq<Scalar> := [];
    var ratings: seq<Rating> := [];
    var good: seq<real> := [];
    var needsImprovement: seq<real> := [];
    var poor: seq<real> := [];
    ghost var entries: seq<Entry> := [];
    var i := 0;
    while i < |metrics|
      invariant 0 <= i <= |metrics|
      invariant EntriesOf(metrics[..i], parse) == Ok(entries)
      invariant PerformanceData(url, names, p75s, ratings, good, needsImprovement, poor) == Unzip(url, entries)
    {
      var (name, m) := metrics[i];
      assert metrics[..i + 1][..i] == metrics[..i];
      if Eligible(m) {
        var shaped := ShapeEntry(name, m, parse);
        if shaped.Err? {
          EntriesErrPersists(metrics, i + 1, parse);
          assert metrics[..|metrics|] == metrics;
          return Err(shaped.error);
        }
        var e := shaped.value;
        names := names + [e.metric];
        p75s := p75s + [e.p75];
        ratings := ratings + [e.rating];
        good := good + [e.good];
        needsImprovement := needsImprovement + [e.needsImprovement];
        poor := poor + [e.poor];
        UnzipSnoc(url, entries, e);
        entries := entries + [e];
      }
      i := i + 1;
    }
    assert metrics[..i] == metrics;
    EntriesSpec(metrics, parse);
    r := Ok(PerformanceData(url, names, p75s, ratings, good, needsImprovement, poor));
  }

  /** The entries are those of the selected metrics, one each, in order; the loop raises
      exactly when one selected metric raises. */
  lemma {:induction false} EntriesSpec(metrics: seq<(string, MetricData)>, parse: string -> Option<Float>)
    ensures var sel := Selected(metrics); var r := EntriesOf(metrics, parse);
            r.Ok? ==> && |r.value| == |sel|
                      && forall k :: 0 <= k < |sel| ==> ShapeEntry(sel[k].0, sel[k].1, parse) == Ok(r.value[k])
    ensures var sel := Selected(metrics);
            EntriesOf(metrics, parse).Err? <==> exists k :: 0 <= k < |sel| && ShapeEntry(sel[k].0, sel[k].1, parse).Err?
  {
    if metrics != [] {
      var init := metrics[..|metrics| - 1];
      var last := metrics[|metrics| - 1];
      EntriesSpec(init, parse);
      var sel0 := Selected(init);
      var sel := Selected(metrics);
      assert sel == sel0 + if Eligible(last.1) then [last] else [];
      if EntriesOf(init, parse).Err? {
        var k :| 0 <= k < |sel0| && ShapeEntry(sel0[k].0, sel0[k].1, parse).Err?;
        assert sel[k] == sel0[k];
      } else if Eligible(last.1) {
        var es := EntriesOf(init, parse).value;
        assert sel[|sel0|] == last;
        if ShapeEntry(last.0, last.1, parse).Ok? {
          var es' := EntriesOf(metrics, parse).value;
          assert es' == es + [ShapeEntry(last.0, last.1, parse).value];
          forall k | 0 <= k < |sel|
            ensures ShapeEntry(sel[k].0, sel[k].1, parse) == Ok(es'[k])
          {
            if k < |sel0| {
              assert sel[k] == sel0[k] && es'[k] == es[k];
            }
          }
          forall k | 0 <= k < |sel| && ShapeEntry(sel[k].0, sel[k].1, parse).Err?
            ensures false
          {
          }
        } else {
          assert EntriesOf(metrics, parse).Err?;
        }
      } else {
        assert sel == sel0;
      }
    }
  }

  /** Selecting distributes over concatenation. */
  lemma {:induction false} SelectedAppend(a: seq<(string, MetricData)>, b: seq<(string, MetricData)>)
    ensures Selected(a + b) == Selected(a) + Selected(b)
    decreases |b|
  {
    if b == [] {
      assert a + b == a;
    } else {
      var n := |b| - 1;
      assert (a + b)[..|a| + n] == a + b[..n];
      assert (a + b)[|a| + n] == b[n];
      SelectedAppend(a, b[..n]);
    }
  }

  /** The loop's result depends only on the eligible metrics. */
  lemma {:induction false} EntriesOfSelected(metrics: seq<(string, MetricData)>, parse: string -> Option<Float>)
    ensures EntriesOf(Selected(metrics), parse) == EntriesOf(metrics, parse)
  {
    if metrics != [] {
      var init := metrics[..|metrics| - 1];
      var last := metrics[|metrics| - 1];
      EntriesOfSelected(init, parse);
      var sel := Selected(metrics);
      if Eligible(last.1) {
        assert sel[..|sel| - 1] == Selected(init);
        assert sel[|sel| - 1] == last;
      } else {
        assert sel == Selected(init);
      }
    }
  }

  /** A metric lacking `percentiles` or `histogram` adds nothing, wherever it stands. */
  lemma SkipsIneligible(before: seq<(string, MetricData)>, name: string, m: MetricData,
                        after: seq<(string, MetricData)>, parse: string -> Option<Float>)
    requires !Eligible(m)
    ensures EntriesOf(before + [(name, m)] + after, parse) == EntriesOf(before + after, parse)
  {
    SelectedAppend(before + [(name, m)], after);
    SelectedAppend(before, [(name, m)]);
    SelectedAppend(before, after);
    assert Selected([(name, m)]) == [] by {
      assert [(name, m)][..0] == [];
    }
    assert Selected(before + [(name, m)] + after) == Selected(before + after);
    EntriesOfSelected(before + [(name, m)] + after, parse);
    EntriesOfSelected(before + after, parse);
  }

  /** The returned lists follow the metrics' iteration order: position k of every list
      describes the k-th metric that has both `percentiles` and `histogram`. */
  lemma ShapeFollowsMetrics(data: Response, parse: string -> Option<Float>)
    ensures var r := Shape(data, parse); var sel := Selected(MetricsOf(data));
            r.Ok? ==> && Parallel(r.value)
                      && |r.value.metric| == |sel|
                      && r.value.url == OriginalUrl(data)
                      && forall k :: 0 <= k < |sel| ==>
                           var h := sel[k].1.histogram.value;
                           && r.value.metric[k] == sel[k].0
                           && Some(r.value.p75[k]) == sel[k].1.percentiles.value.p75
                           && Classify(sel[k].0, r.value.p75[k], parse) == Ok(r.value.rating[k])
                           && |h| >= 3
                           && h[0].density.Some? && r.value.good[k] == 100.0 * h[0].density.value
                           && h[1].density.Some? && r.value.needsImprovement[k] == 100.0 * h[1].density.value
                           && h[2].density.Some? && r.value.poor[k] == 100.0 * h[2].density.value
  {
    EntriesSpec(MetricsOf(data), parse);
  }

  /** The function raises exactly when some metric with both fields lacks `p75`, has fewer
      than three buckets, lacks one of their densities, or has a p75 that does not parse;
      in particular a histogram shorter than three buckets always raises. */
  lemma ShapeFails(data: Response, parse: string -> Option<Float>)
    ensures var sel := Selected(MetricsOf(data));
            Shape(data, parse).Err? <==> exists k :: 0 <= k < |sel| && ShapeEntry(sel[k].0, sel[k].1, parse).Err?
    ensures forall name, m :: (name, m) in MetricsOf(data) && Eligible(m) && |m.histogram.value| < 3 ==>
              Shape(data, parse).Err?
  {
    var metrics := MetricsOf(data);
    EntriesSpec(metrics, parse);
    forall name, m | (name, m) in metrics && Eligible(m) && |m.histogram.value| < 3
      ensures Shape(data, parse).Err?
    {
      var i :| 0 <= i < |metrics| && metrics[i] == (name, m);
      SelectedContains(metrics, i);
    }
  }

  /** An eligible metric is among the selected ones. */
  lemma {:induction false} SelectedContains(metrics: seq<(string, MetricData)>, i: nat)
    requires i < |metrics| && Eligible(metrics[i].1)
    ensures metrics[i] in Selected(metrics)
  {
    var init := metrics[..|metrics| - 1];
    if i < |metrics| - 1 {
      SelectedContains(init, i);
    }
  }

  /** Densities 0.5, 0.3 and 0.2 become 50, 30 and 20 percent. */
  lemma ShapeExample(parse: string -> Option<Float>)
    ensures
      var lcp := MetricData(
        Some(Percentiles(Some(Num(2400.0)))),
        Some([Bucket(Some(Num(0.0)), Some(Num(2500.0)), Some(0.5)),
              Bucket(Some(Num(2500.0)), Some(Num(4000.0)), Some(0.3)),
              Bucket(Some(Num(4000.0)), None, Some(0.2))]),
        None);
      var data := Response(None, Some(Record(Some([("largest_contentful_paint", lcp)]))),
                           Some(UrlNormalization(Some("https://example.com"), None)));
      Shape(data, parse) == Ok(PerformanceData("https://example.com", ["largest_contentful_paint"],
                                               [Num(2400.0)], [Good], [50.0], [30.0], [20.0]))
  {
    var lcp := MetricData(
      Some(Percentiles(Some(Num(2400.0)))),
      Some([Bucket(Some(Num(0.0)), Some(Num(2500.0)), Some(0.5)),
            Bucket(Some(Num(2500.0)), Some(Num(4000.0)), Some(0.3)),
            Bucket(Some(Num(4000.0)), None, Some(0.2))]),
      None);
    var metrics := [("largest_contentful_paint", lcp)];
    assert metrics[..0] == [];
    assert EntriesOf(metrics[..0], parse) == Ok([]);
    var e := ShapeEntry("largest_contentful_paint", lcp, parse);
    assert e == Ok(Entry("largest_contentful_paint", Num(2400.0), Good, 50.0, 30.0, 20.0));
    assert metrics[..|metrics| - 1] == [];
    assert metrics[|metrics| - 1] == ("largest_contentful_paint", lcp);
    assert Eligible(lcp);
    assert [] + [e.value] == [e.value];
    assert EntriesOf(metrics, parse) == Ok([e.value]);
    var d := Unzip("https://example.com", [e.value]);
    assert d.metric == ["largest_contentful_paint"] && d.p75 == [Num(2400.0)] && d.rating == [Good];
    assert d.good == [50.0] && d.needsImprovement == [30.0] && d.poor == [20.0];
    var data := Response(None, Some(Record(Some(metrics))),
                         Some(UrlNormalization(Some("https://example.com"), None)));
    assert MetricsOf(data) == metrics;
    assert OriginalUrl(data) == "https://example.com";
    assert Shape(data, parse) == Ok(Unzip("https://example.com", [e.value]));
  }
}
