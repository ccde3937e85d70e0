/** What can be read back from the row `extract_raw_metrics` returns. */
module RawRow {
  import opened Wrappers
  import opened OrderedDict
  import opened Strings
  import opened CruxResponse
  import opened RawShaper

  const BaseTags: set<string> := {"ur", "no"}
  const MetricTags: set<string> := {"la", "fi", "in", "ex", "cu"}

  /** The three column groups of the row, each with its own tags. */
  lemma RawColumnsTagged(data: Response)
    ensures TaggedAmong(BaseColumns(data), BaseTags)
    ensures TaggedAmong(FixedColumns(MetricsOf(data), RequestedMetrics), MetricTags)
    ensures TaggedAmong(FormFactorColumns(MetricsOf(data)), {"fo"})
  {
    assert Tag("url") == "ur" && Tag("normalized_url") == "no";
    RequestedMetricsTags();
    FixedColumnsDistinct(MetricsOf(data), RequestedMetrics);
    FormFactorColumnsDistinct(MetricsOf(data));
  }

  lemma NotTagged(cols: seq<(string, Scalar)>, tags: set<string>, k: string)
    requires TaggedAmong(cols, tags) && Tag(k) !in tags
    ensures k !in Keys(cols) && Lookup(cols, k) == None
  {
    forall i | 0 <= i < |cols|
      ensures Keys(cols)[i] != k
    {
      assert Tag(cols[i].0) in tags;
    }
  }

  /** A key with a metric's tag is looked up among the metric columns alone. */
  lemma LookupMetricColumn(data: Response, k: string)
    requires Tag(k) in MetricTags
    ensures Lookup(RawColumns(data), k) == Lookup(FixedColumns(MetricsOf(data), RequestedMetrics), k)
  {
    var base := BaseColumns(data);
    var fixed := FixedColumns(MetricsOf(data), RequestedMetrics);
    var ff := FormFactorColumns(MetricsOf(data));
    RawColumnsTagged(data);
    NotTagged(base, BaseTags, k);
    NotTagged(ff, {"fo"}, k);
    LookupAppend(base + fixed, ff, k);
    LookupAppend(base, fixed, k);
  }

  /** A key tagged `fo` is looked up among the device columns alone. */
  lemma LookupFormFactorColumn(data: Response, k: string)
    requires Tag(k) == "fo"
    ensures Lookup(RawColumns(data), k) == Lookup(FormFactorColumns(MetricsOf(data)), k)
  {
    var base := BaseColumns(data);
    var fixed := FixedColumns(MetricsOf(data), RequestedMetrics);
    RawColumnsTagged(data);
    TaggedAppend(base, fixed, BaseTags, MetricTags);
    NotTagged(base + fixed, BaseTags + MetricTags, k);
    LookupAppend(base + fixed, FormFactorColumns(MetricsOf(data)), k);
  }

  /** Among several metrics with distinct tags, a key is found in the metric sharing its tag. */
  lemma {:induction false} LookupFixed(metrics: Dict<MetricData>, names: seq<string>, i: nat, k: string)
    requires DistinctTags(names) && i < |names| && Tag(k) == Tag(names[i])
    ensures Lookup(FixedColumns(metrics, names), k) == Lookup(MetricColumns(names[i], MetricNamed(metrics, names[i])), k)
    decreases |names|, 1
  {
    var n := |names| - 1;
    var init := names[..n];
    assert DistinctTags(init);
    var fc, last := FixedColumns(metrics, init), MetricColumns(names[n], MetricNamed(metrics, names[n]));
    assert FixedColumns(metrics, names) == fc + last;
    LookupAppend(fc, last, k);
    if i == n {
      LookupFixedLast(metrics, names, k);
    } else {
      LookupFixedEarlier(metrics, names, i, k);
    }
  }

  /** A key with the tag of the last metric is none of the earlier metrics' columns. */
  lemma LookupFixedLast(metrics: Dict<MetricData>, names: seq<string>, k: string)
    requires DistinctTags(names) && names != [] && Tag(k) == Tag(names[|names| - 1])
    ensures k !in Keys(FixedColumns(metrics, names[..|names| - 1]))
  {
    var init := names[..|names| - 1];
    assert DistinctTags(init);
    FixedColumnsDistinct(metrics, init);
    assert Tag(k) !in TagsOf(init);
    NotTagged(FixedColumns(metrics, init), TagsOf(init), k);
  }

  /** A key with the tag of an earlier metric is looked up among the earlier metrics. */
  lemma LookupFixedEarlier(metrics: Dict<MetricData>, names: seq<string>, i: nat, k: string)
    requires DistinctTags(names) && i < |names| - 1 && Tag(k) == Tag(names[i])
    ensures var n := |names| - 1;
            Lookup(MetricColumns(names[n], MetricNamed(metrics, names[n])), k) == None &&
            Lookup(FixedColumns(metrics, names[..n]), k) == Lookup(MetricColumns(names[i], MetricNamed(metrics, names[i])), k)
    decreases |names|, 0
  {
    var n := |names| - 1;
    var init := names[..n];
    MetricColumnsDistinct(names[n], MetricNamed(metrics, names[n]));
    NotTagged(MetricColumns(names[n], MetricNamed(metrics, names[n])), {Tag(names[n])}, k);
    assert DistinctTags(init) && init[i] == names[i];
    LookupFixed(metrics, init, i, k);
  }

  /** Column `url` holds `urlNormalizationDetails.originalUrl`, `normalized_url` its
      `normalizedUrl`, each `""` when missing. */
  lemma RawRowUrls(data: Response)
    ensures var row := RawColumns(data);
            row[0] == ("url", Str(OriginalUrl(data))) && row[1] == ("normalized_url", Str(NormalizedUrl(data)))
    ensures data.urlNormalizationDetails.None? ==> RawColumns(data)[..2] == [("url", Str("")), ("normalized_url", Str(""))]
    ensures var lookedUp := Lookup(RawColumns(data), "url");
            lookedUp.Some? && (data.urlNormalizationDetails.Some? && data.urlNormalizationDetails.value.originalUrl.Some?
                               ==> lookedUp.value == Str(data.urlNormalizationDetails.value.originalUrl.value))
  {
    var row := RawColumns(data);
    assert row == BaseColumns(data) + (FixedColumns(MetricsOf(data), RequestedMetrics) + FormFactorColumns(MetricsOf(data)));
    assert row[..2] == BaseColumns(data);
  }

  /** A requested metric's `_p75` column exists exactly when it has `percentiles`, and holds
      `percentiles.p75`, or `""` when that is missing. */
  lemma RawRowP75(data: Response, i: nat)
    requires i < |RequestedMetrics|
    ensures var name := RequestedMetrics[i];
            var m := MetricNamed(MetricsOf(data), name);
            Lookup(RawColumns(data), P75Key(name))
            == if m.percentiles.Some? then Some(m.percentiles.value.p75.GetOr(Str(""))) else None
  {
    var name := RequestedMetrics[i];
    var m := MetricNamed(MetricsOf(data), name);
    RequestedMetricsTags();
    TagPrefix(name, "_p75");
    LookupMetricColumn(data, P75Key(name));
    LookupFixed(MetricsOf(data), RequestedMetrics, i, P75Key(name));
    var hs := if m.histogram.Some? then HistogramColumns(name, m.histogram.value) else [];
    if m.histogram.Some? {
      HistogramColumnsTagged(name, m.histogram.value);
    }
    forall t | 0 <= t < |hs|
      ensures Keys(hs)[t] != P75Key(name)
    {
      assert P75Key(name)[|name| + 1] == 'p';
    }
    LookupAppend(P75Columns(name, m), hs, P75Key(name));
  }

  /** In the histogram columns, a bucket column exists exactly for buckets 1 to `|h|` and the
      three fields, and holds that bucket's field. */
  lemma LookupHistogram(name: string, h: seq<Bucket>, i: nat, f: string)
    ensures Lookup(HistogramColumns(name, h), BucketKey(name, i, f))
            == if 1 <= i <= |h| && f in BucketFields then Some(BucketCell(h[i - 1], f)) else None
  {
    if 1 <= i <= |h| && f in BucketFields {
      var x :| 0 <= x < 3 && BucketFields[x] == f;
      BucketPresent(name, h, i, x);
    } else {
      BucketAbsent(name, h, i, f);
    }
  }

  lemma BucketPresent(name: string, h: seq<Bucket>, i: nat, x: nat)
    requires 1 <= i <= |h| && x < 3
    ensures Lookup(HistogramColumns(name, h), BucketKey(name, i, BucketFields[x])) == Some(BucketCell(h[i - 1], BucketFields[x]))
  {
    var cs := HistogramColumns(name, h);
    var t := 3 * (i - 1) + x;
    assert t / 3 == i - 1 && t % 3 == x;
    HistogramColumnsAt(name, h);
    assert cs[t] == (BucketKey(name, i, BucketFields[x]), BucketCell(h[i - 1], BucketFields[x]));
    HistogramColumnsDistinct(name, h);
    LookupAt(cs, t);
  }

  lemma BucketAbsent(name: string, h: seq<Bucket>, i: nat, f: string)
    requires !(1 <= i <= |h| && f in BucketFields)
    ensures Lookup(HistogramColumns(name, h), BucketKey(name, i, f)) == None
  {
    var cs := HistogramColumns(name, h);
    HistogramColumnsAt(name, h);
    forall t | 0 <= t < |cs|
      ensures Keys(cs)[t] != BucketKey(name, i, f)
    {
      BucketKeyInjective(name, t / 3 + 1, BucketFields[t % 3], i, f);
    }
  }

  /** Within one metric's columns, the bucket columns are those of its histogram. */
  lemma LookupMetricBucket(name: string, m: MetricData, i: nat, f: string)
    requires |name| >= 2
    ensures Lookup(MetricColumns(name, m), BucketKey(name, i, f))
            == if m.histogram.Some? && 1 <= i <= |m.histogram.value| && f in BucketFields
               then Some(BucketCell(m.histogram.value[i - 1], f)) else None
  {
    var k := BucketKey(name, i, f);
    var hs := if m.histogram.Some? then HistogramColumns(name, m.histogram.value) else [];
    assert k == name + ("_bucket_" + Decimal(i) + "_" + f);
    assert k[|name| + 1] == 'b';
    LookupAppend(P75Columns(name, m), hs, k);
    if m.histogram.Some? {
      LookupHistogram(name, m.histogram.value, i, f);
    }
  }

  /** A requested metric's bucket columns: `<metric>_bucket_<i>_<field>` exists exactly when the
      metric has a histogram with at least `i` buckets (counted from 1) and `field` is one of
      density, start and end; it holds that field of bucket `i`, `""` when missing. */
  lemma RawRowBucket(data: Response, n: nat, i: nat, f: string)
    requires n < |RequestedMetrics|
    ensures var name := RequestedMetrics[n];
            var m := MetricNamed(MetricsOf(data), name);
            Lookup(RawColumns(data), BucketKey(name, i, f))
            == if m.histogram.Some? && 1 <= i <= |m.histogram.value| && f in BucketFields
               then Some(BucketCell(m.histogram.value[i - 1], f)) else None
  {
    var name := RequestedMetrics[n];
    var k := BucketKey(name, i, f);
    RequestedMetricsTags();
    BucketKeyTag(name, i, f);
    LookupMetricColumn(data, k);
    LookupFixed(MetricsOf(data), RequestedMetrics, n, k);
    LookupMetricBucket(name, MetricNamed(MetricsOf(data), name), i, f);
  }

  /** The device columns map `form_factor_<device>` to that device's fraction. */
  lemma {:induction false} LookupFractions(fractions: seq<(string, real)>, d: string)
    ensures Lookup(FractionColumns(fractions), FormFactorKey(d))
            == match Lookup(fractions, d) case Some(x) => Some(Num(x)) case None => None
  {
    if fractions != [] {
      var n := |fractions| - 1;
      var init := fractions[..n];
      var last := fractions[n];
      LookupFractions(init, d);
      assert fractions == init + [last];
      LookupAppend(init, [last], d);
      LookupAppend(FractionColumns(init), [(FormFactorKey(last.0), Num(last.1))], FormFactorKey(d));
      assert FormFactorKey(last.0)[12..] == last.0 && FormFactorKey(d)[12..] == d;
    }
  }

  /** `form_factor_<device>` holds the device's fraction from `form_factors` inside
      `record.metrics`, and exists only for the devices listed there. */
  lemma RawRowFormFactor(data: Response, d: string)
    ensures var metrics := MetricsOf(data);
            Lookup(RawColumns(data), FormFactorKey(d))
            == if "form_factors" in Keys(metrics)
               then (match Lookup(MetricNamed(metrics, "form_factors").fractions.GetOr([]), d)
                     case Some(x) => Some(Num(x)) case None => None)
               else None
  {
    TagPrefix("form_factor_", d);
    assert Tag("form_factor_") == "fo";
    LookupFormFactorColumn(data, FormFactorKey(d));
    if "form_factors" in Keys(MetricsOf(data)) {
      LookupFractions(MetricNamed(MetricsOf(data), "form_factors").fractions.GetOr([]), d);
    }
  }

  lemma {:induction false} FixedColumnsDependOnNamed(m1: Dict<MetricData>, m2: Dict<MetricData>, names: seq<string>)
    requires forall i :: 0 <= i < |names| ==> Lookup(m1, names[i]) == Lookup(m2, names[i])
    ensures FixedColumns(m1, names) == FixedColumns(m2, names)
  {
    if names != [] {
      FixedColumnsDependOnNamed(m1, m2, names[..|names| - 1]);
    }
  }

  /** The row reads nothing of the response but the two URLs, the five requested metrics and
      `form_factors`: metrics the code does not ask for never reach it. */
  lemma RawRowIgnoresOtherMetrics(d1: Response, d2: Response)
    requires OriginalUrl(d1) == OriginalUrl(d2) && NormalizedUrl(d1) == NormalizedUrl(d2)
    requires forall i :: 0 <= i < |RequestedMetrics| ==>
               Lookup(MetricsOf(d1), RequestedMetrics[i]) == Lookup(MetricsOf(d2), RequestedMetrics[i])
    requires Lookup(MetricsOf(d1), "form_factors") == Lookup(MetricsOf(d2), "form_factors")
    ensures RawColumns(d1) == RawColumns(d2)
  {
    FixedColumnsDependOnNamed(MetricsOf(d1), MetricsOf(d2), RequestedMetrics);
  }
}
