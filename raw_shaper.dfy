/** `extract_raw_metrics`: one flat row per URL, built by inserting columns into a dict. */
module RawShaper {
  import opened Wrappers
  import opened OrderedDict
  import opened Strings
  import opened CruxResponse

  /** A raw row: column name to cell, in insertion order. */
  type Row = Dict<Scalar>

  /** The three columns written per histogram bucket, in the order they are inserted. */
  const BucketFields: seq<string> := ["density", "start", "end"]

  function P75Key(name: string): string {
    name + "_p75"
  }

  /** `f"{metric_name}_bucket_{idx}_{field}"`. */
  function BucketKey(name: string, index: nat, field: string): string {
    name + "_bucket_" + Decimal(index) + "_" + field
  }

  function FormFactorKey(device: string): string {
    "form_factor_" + device
  }

  /** `x.get(key, '')` on a scalar member. */
  function Cell(v: Option<Scalar>): Scalar {
    v.GetOr(Str(""))
  }

  /** `bucket.get('density', '')`. */
  function DensityCell(d: Option<real>): Scalar {
    match d
    case Some(x) => Num(x)
    case None => Str("")
  }

  /** The cell written for one field of one bucket. */
  function BucketCell(b: Bucket, field: string): Scalar {
    if field == "density" then DensityCell(b.density)
    else if field == "start" then Cell(b.start)
    else Cell(b.end)
  }

  /** The two columns of the dict display that opens the row. */
  function BaseColumns(data: Response): Row {
    [("url", Str(OriginalUrl(data))), ("normalized_url", Str(NormalizedUrl(data)))]
  }

  function P75Columns(name: string, m: MetricData): seq<(string, Scalar)> {
    if m.percentiles.Some? then [(P75Key(name), Cell(m.percentiles.value.p75))] else []
  }

  /** The columns of bucket number `index` (counted from 1). */
  function BucketColumns(name: string, index: nat, b: Bucket): seq<(string, Scalar)> {
    [(BucketKey(name, index, "density"), BucketCell(b, "density")),
     (BucketKey(name, index, "start"), BucketCell(b, "start")),
     (BucketKey(name, index, "end"), BucketCell(b, "end"))]
  }

  /** `enumerate(histogram, 1)` turned into columns. */
  function HistogramColumns(name: string, h: seq<Bucket>): seq<(string, Scalar)> {
    if h == [] then []
    else HistogramColumns(name, h[..|h| - 1]) + BucketColumns(name, |h|, h[|h| - 1])
  }

  /** Everything one metric contributes. */
  function MetricColumns(name: string, m: MetricData): seq<(string, Scalar)> {
    P75Columns(name, m) + if m.histogram.Some? then HistogramColumns(name, m.histogram.value) else []
  }

  /** The metrics `names`, in order, each looked up with `metrics.get(name, {})`. */
  function FixedColumns(metrics: Dict<MetricData>, names: seq<string>): seq<(string, Scalar)> {
    if names == [] then []
    else
      var name := names[|names| - 1];
      FixedColumns(metrics, names[..|names| - 1]) + MetricColumns(name, MetricNamed(metrics, name))
  }

  function FractionColumns(fractions: seq<(string, real)>): seq<(string, Scalar)> {
    if fractions == [] then []
    else
      var last := fractions[|fractions| - 1];
      FractionColumns(fractions[..|fractions| - 1]) + [(FormFactorKey(last.0), Num(last.1))]
  }

  /** The device columns, taken from the `form_factors` member of `record.metrics`. */
  function FormFactorColumns(metrics: Dict<MetricData>): seq<(string, Scalar)> {
    if "form_factors" in Keys(metrics) then FractionColumns(MetricNamed(metrics, "form_factors").fractions.GetOr([]))
    else []
  }

  /** All columns of the row, in the order the code inserts them. */
  function RawColumns(data: Response): seq<(string, Scalar)> {
    var metrics := MetricsOf(data);
    BaseColumns(data) + FixedColumns(metrics, RequestedMetrics) + FormFactorColumns(metrics)
  }

  /** The row built by inserting columns into a dict. Since no column name repeats (see
      RawColumnsDistinct), no insertion overwrites an earlier one. */
  method ExtractRawMetrics(data: Response) returns (row: Row)
    ensures row == RawColumns(data)
  {
    var metrics := MetricsOf(data);
    var base := BaseColumns(data);
    row := base;
    var i := 0;
    while i < |RequestedMetrics|
      invariant 0 <= i <= |RequestedMetrics|
      invariant row == InsertAll(base, FixedColumns(metrics, RequestedMetrics[..i]))
    {
      var name := RequestedMetrics[i];
      var m := MetricNamed(metrics, name);
      ghost var done := FixedColumns(metrics, RequestedMetrics[..i]);
      row := AddMetricColumns(row, name, m);
      InsertAllAppend(base, done, MetricColumns(name, m));
      FixedColumnsStep(metrics, RequestedMetrics, i);
      i := i + 1;
    }
    assert RequestedMetrics[..i] == RequestedMetrics;
    ghost var fixed := FixedColumns(metrics, RequestedMetrics);
    row := AddFormFactorColumns(row, metrics);
    InsertAllAppend(base, fixed, FormFactorColumns(metrics));
    InsertionGivesRawColumns(data);
  }

  /** Inserting all columns into the opening dict gives exactly their concatenation. */
  lemma InsertionGivesRawColumns(data: Response)
    ensures var metrics := MetricsOf(data);
            InsertAll(BaseColumns(data), FixedColumns(metrics, RequestedMetrics) + FormFactorColumns(metrics))
            == RawColumns(data)
  {
    var metrics := MetricsOf(data);
    var rest := FixedColumns(metrics, RequestedMetrics) + FormFactorColumns(metrics);
    RawColumnsDistinct(data);
    assert BaseColumns(data) + rest == RawColumns(data);
    InsertAllFresh(BaseColumns(data), rest);
  }

  /** One pass of the loop over the requested metrics: the `_p75` column, then the three
      columns of every bucket. */
  method AddMetricColumns(row: Row, name: string, m: MetricData) returns (r: Row)
    ensures r == InsertAll(row, MetricColumns(name, m))
  {
    r := row;
    ghost var p75 := P75Columns(name, m);
    if m.percentiles.Some? {
      InsertAllSnoc(row, [], P75Key(name), Cell(m.percentiles.value.p75));
      assert [] + [(P75Key(name), Cell(m.percentiles.value.p75))] == p75;
      r := Insert(r, P75Key(name), Cell(m.percentiles.value.p75));
    }
    assert r == InsertAll(row, p75);
    if m.histogram.Some? {
      var h := m.histogram.value;
      var j := 0;
      assert p75 + HistogramColumns(name, h[..j]) == p75;
      while j < |h|
        invariant 0 <= j <= |h|
        invariant r == InsertAll(row, p75 + HistogramColumns(name, h[..j]))
      {
        var bucket := h[j];
        InsertBucket(row, p75, name, h, j);
        r := Insert(r, BucketKey(name, j + 1, "density"), DensityCell(bucket.density));
        r := Insert(r, BucketKey(name, j + 1, "start"), Cell(bucket.start));
        r := Insert(r, BucketKey(name, j + 1, "end"), Cell(bucket.end));
        j := j + 1;
      }
      assert h[..j] == h;
    } else {
      assert p75 + [] == p75;
    }
  }

  /** `if 'form_factors' in metrics`: one column per device of its `fractions`. */
  method AddFormFactorColumns(row: Row, metrics: Dict<MetricData>) returns (r: Row)
    ensures r == InsertAll(row, FormFactorColumns(metrics))
  {
    r := row;
    if "form_factors" in Keys(metrics) {
      var fractions := MetricNamed(metrics, "form_factors").fractions.GetOr([]);
      var j := 0;
      assert FractionColumns(fractions[..j]) == [] + [];
      while j < |fractions|
        invariant 0 <= j <= |fractions|
        invariant r == InsertAll(row, [] + FractionColumns(fractions[..j]))
      {
        var (device, fraction) := fractions[j];
        InsertFraction(row, [], fractions, j);
        r := Insert(r, FormFactorKey(device), Num(fraction));
        j := j + 1;
      }
      assert fractions[..j] == fractions;
      assert [] + FractionColumns(fractions) == FormFactorColumns(metrics);
    }
  }

  lemma FixedColumnsStep(metrics: Dict<MetricData>, names: seq<string>, i: nat)
    requires i < |names|
    ensures FixedColumns(metrics, names[..i + 1])
            == FixedColumns(metrics, names[..i]) + MetricColumns(names[i], MetricNamed(metrics, names[i]))
  {
    assert names[..i + 1][..i] == names[..i];
  }

  /** Inserting one device column extends the form factor columns by one device. */
  lemma InsertFraction(base: Row, fixed: seq<(string, Scalar)>, fractions: seq<(string, real)>, j: nat)
    requires j < |fractions|
    ensures InsertAll(base, fixed + FractionColumns(fractions[..j + 1]))
            == Insert(InsertAll(base, fixed + FractionColumns(fractions[..j])), FormFactorKey(fractions[j].0), Num(fractions[j].1))
  {
    assert fractions[..j + 1][..j] == fractions[..j];
    var c := (FormFactorKey(fractions[j].0), Num(fractions[j].1));
    assert fixed + FractionColumns(fractions[..j + 1]) == fixed + FractionColumns(fractions[..j]) + [c];
    InsertAllSnoc(base, fixed + FractionColumns(fractions[..j]), c.0, c.1);
  }

  /** Inserting the three columns of bucket `j + 1` extends the histogram columns by one bucket. */
  lemma InsertBucket(base: Row, done: seq<(string, Scalar)>, name: string, h: seq<Bucket>, j: nat)
    requires j < |h|
    ensures var b := h[j];
            InsertAll(base, done + HistogramColumns(name, h[..j + 1]))
            == Insert(Insert(Insert(InsertAll(base, done + HistogramColumns(name, h[..j])),
                                    BucketKey(name, j + 1, "density"), DensityCell(b.density)),
                             BucketKey(name, j + 1, "start"), Cell(b.start)),
                      BucketKey(name, j + 1, "end"), Cell(b.end))
  {
    var b := h[j];
    var before := done + HistogramColumns(name, h[..j]);
    var c1 := (BucketKey(name, j + 1, "density"), DensityCell(b.density));
    var c2 := (BucketKey(name, j + 1, "start"), Cell(b.start));
    var c3 := (BucketKey(name, j + 1, "end"), Cell(b.end));
    assert h[..j + 1][..j] == h[..j];
    assert done + HistogramColumns(name, h[..j + 1]) == before + [c1] + [c2] + [c3];
    InsertAllSnoc(base, before, c1.0, c1.1);
    InsertAllSnoc(base, before + [c1], c2.0, c2.1);
    InsertAllSnoc(base, before + [c1] + [c2], c3.0, c3.1);
  }

  /** No column name of the row repeats, so the dict never overwrites a cell. */
  lemma RawColumnsDistinct(data: Response)
    ensures DistinctKeys(RawColumns(data))
  {
    var metrics := MetricsOf(data);
    var base := BaseColumns(data);
    var fixed := FixedColumns(metrics, RequestedMetrics);
    var ff := FormFactorColumns(metrics);
    var metricTags := TagsOf(RequestedMetrics);
    assert TaggedAmong(base, {"ur", "no"}) by {
      assert Tag("url") == "ur" && Tag("normalized_url") == "no";
    }
    assert DistinctKeys(fixed) && TaggedAmong(fixed, metricTags) && metricTags == {"la", "fi", "in", "ex", "cu"} by {
      RequestedMetricsTags();
      FixedColumnsDistinct(metrics, RequestedMetrics);
    }
    FormFactorColumnsDistinct(metrics);
    assert DistinctKeys(base + fixed) by {
      TaggedDisjoint(base, fixed, {"ur", "no"}, metricTags);
      DistinctAppend(base, fixed);
    }
    assert Disjoint(base + fixed, ff) by {
      TaggedAppend(base, fixed, {"ur", "no"}, metricTags);
      TaggedDisjoint(base + fixed, ff, {"ur", "no"} + metricTags, {"fo"});
    }
    DistinctAppend(base + fixed, ff);
  }

  /** The first two characters of a column name; the column groups of the row differ in it. */
  function Tag(k: string): string {
    if |k| <= 2 then k else k[..2]
  }

  predicate TaggedAmong(cols: seq<(string, Scalar)>, tags: set<string>) {
    forall i :: 0 <= i < |cols| ==> Tag(cols[i].0) in tags
  }

  function TagsOf(names: seq<string>): set<string> {
    set i | 0 <= i < |names| :: Tag(names[i])
  }

  /** Each name is long enough to carry a tag and no two share one. */
  predicate DistinctTags(names: seq<string>) {
    (forall i :: 0 <= i < |names| ==> |names[i]| >= 2) &&
    (forall i, j :: 0 <= i < j < |names| ==> Tag(names[i]) != Tag(names[j]))
  }

  lemma RequestedMetricsTags()
    ensures DistinctTags(RequestedMetrics)
    ensures TagsOf(RequestedMetrics) == {"la", "fi", "in", "ex", "cu"}
  {
    var ns := RequestedMetrics;
    var tags := {"la", "fi", "in", "ex", "cu"};
    assert Tag(ns[0]) == "la" && Tag(ns[1]) == "fi" && Tag(ns[2]) == "in";
    assert Tag(ns[3]) == "ex" && Tag(ns[4]) == "cu";
    forall x | x in TagsOf(ns)
      ensures x in tags
    {
      var i :| 0 <= i < |ns| && x == Tag(ns[i]);
      assert i == 0 || i == 1 || i == 2 || i == 3 || i == 4;
    }
    forall x | x in tags
      ensures x in TagsOf(ns)
    {
      var i := if x == "la" then 0 else if x == "fi" then 1 else if x == "in" then 2 else if x == "ex" then 3 else 4;
      assert Tag(ns[i]) == x;
    }
  }

  lemma TagPrefix(a: string, x: string)
    requires |a| >= 2
    ensures Tag(a + x) == Tag(a)
  {
    assert (a + x)[..2] == a[..2];
  }

  lemma TaggedDisjoint(a: seq<(string, Scalar)>, b: seq<(string, Scalar)>, ta: set<string>, tb: set<string>)
    requires TaggedAmong(a, ta) && TaggedAmong(b, tb) && ta !! tb
    ensures Disjoint(a, b)
  {
    forall k | k in Keys(a)
      ensures k !in Keys(b)
    {
      var i :| 0 <= i < |a| && Keys(a)[i] == k;
      assert Tag(k) in ta;
      forall j | 0 <= j < |b|
        ensures Keys(b)[j] != k
      {
        assert Tag(b[j].0) in tb;
      }
    }
  }

  lemma TaggedAppend(a: seq<(string, Scalar)>, b: seq<(string, Scalar)>, ta: set<string>, tb: set<string>)
    requires TaggedAmong(a, ta) && TaggedAmong(b, tb)
    ensures TaggedAmong(a + b, ta + tb)
  {
    forall i | 0 <= i < |a + b|
      ensures Tag((a + b)[i].0) in ta + tb
    {
      if i < |a| {
        assert (a + b)[i] == a[i];
      } else {
        assert (a + b)[i] == b[i - |a|];
      }
    }
  }

  /** Bucket number and field can be read back from a bucket column's name. */
  lemma BucketKeyInjective(name: string, i: nat, f: string, j: nat, g: string)
    ensures BucketKey(name, i, f) == BucketKey(name, j, g) ==> i == j && f == g
  {
    if BucketKey(name, i, f) == BucketKey(name, j, g) {
      BucketKeyParts(name, i, f, j, g);
    }
  }

  lemma BucketKeyParts(name: string, i: nat, f: string, j: nat, g: string)
    requires BucketKey(name, i, f) == BucketKey(name, j, g)
    ensures i == j && f == g
  {
    var p := name + "_bucket_";
    var x := "_" + f;
    var y := "_" + g;
    assert BucketKey(name, i, f) == p + (Decimal(i) + x);
    assert BucketKey(name, j, g) == p + (Decimal(j) + y);
    assert Decimal(i) + x == BucketKey(name, i, f)[|p|..];
    assert Decimal(j) + y == BucketKey(name, j, g)[|p|..];
    DigitsThenMarker(Decimal(i), x, Decimal(j), y);
    DecimalInjective(i, j);
    assert f == x[1..] && g == y[1..];
  }

  /** Column `t` of a histogram is field `t % 3` of bucket `t / 3 + 1`. */
  lemma {:induction false} HistogramColumnsAt(name: string, h: seq<Bucket>)
    ensures |HistogramColumns(name, h)| == 3 * |h|
    ensures forall t :: 0 <= t < 3 * |h| ==>
              HistogramColumns(name, h)[t] == (BucketKey(name, t / 3 + 1, BucketFields[t % 3]), BucketCell(h[t / 3], BucketFields[t % 3]))
  {
    if h != [] {
      var n := |h| - 1;
      var init := h[..n];
      HistogramColumnsAt(name, init);
      var cs := HistogramColumns(name, h);
      assert cs == HistogramColumns(name, init) + BucketColumns(name, |h|, h[n]);
      forall t | 0 <= t < 3 * |h|
        ensures cs[t] == (BucketKey(name, t / 3 + 1, BucketFields[t % 3]), BucketCell(h[t / 3], BucketFields[t % 3]))
      {
        if t < 3 * n {
          assert cs[t] == HistogramColumns(name, init)[t];
          assert init[t / 3] == h[t / 3];
        } else {
          assert t / 3 == n;
          assert cs[t] == BucketColumns(name, |h|, h[n])[t - 3 * n];
        }
      }
    }
  }

  lemma HistogramColumnsDistinct(name: string, h: seq<Bucket>)
    ensures DistinctKeys(HistogramColumns(name, h))
  {
    var cs := HistogramColumns(name, h);
    HistogramColumnsAt(name, h);
    forall t, u | 0 <= t < u < |cs|
      ensures cs[t].0 != cs[u].0
    {
      BucketKeyInjective(name, t / 3 + 1, BucketFields[t % 3], u / 3 + 1, BucketFields[u % 3]);
      assert BucketFields[t % 3] == BucketFields[u % 3] ==> t % 3 == u % 3;
    }
  }

  lemma BucketKeyTag(name: string, i: nat, f: string)
    requires |name| >= 2
    ensures Tag(BucketKey(name, i, f)) == Tag(name)
    ensures |BucketKey(name, i, f)| > |name| + 1 && BucketKey(name, i, f)[|name| + 1] == 'b'
  {
    assert BucketKey(name, i, f) == name + ("_bucket_" + Decimal(i) + "_" + f);
    TagPrefix(name, "_bucket_" + Decimal(i) + "_" + f);
  }

  /** A histogram column: the metric's tag, and a `b` right after `name_`. */
  predicate BucketMarked(cols: seq<(string, Scalar)>, name: string)
    requires |name| >= 2
  {
    forall t :: 0 <= t < |cols| ==> Tag(cols[t].0) == Tag(name) && |cols[t].0| > |name| + 1 && cols[t].0[|name| + 1] == 'b'
  }

  /** Every histogram column of a metric carries the metric's tag and a `b` right after `name_`. */
  lemma {:induction false} HistogramColumnsTagged(name: string, h: seq<Bucket>)
    requires |name| >= 2
    ensures BucketMarked(HistogramColumns(name, h), name)
  {
    if h != [] {
      var init, b := HistogramColumns(name, h[..|h| - 1]), BucketColumns(name, |h|, h[|h| - 1]);
      HistogramColumnsTagged(name, h[..|h| - 1]);
      BucketKeyTag(name, |h|, "density");
      BucketKeyTag(name, |h|, "start");
      BucketKeyTag(name, |h|, "end");
      assert BucketMarked(b, name);
      assert forall t :: 0 <= t < |init| + |b| ==> (init + b)[t] == if t < |init| then init[t] else b[t - |init|];
    }
  }

  /** One metric's columns: distinct names, all carrying the metric's tag. */
  lemma MetricColumnsDistinct(name: string, m: MetricData)
    requires |name| >= 2
    ensures DistinctKeys(MetricColumns(name, m))
    ensures TaggedAmong(MetricColumns(name, m), {Tag(name)})
  {
    var p := P75Columns(name, m);
    var hs := if m.histogram.Some? then HistogramColumns(name, m.histogram.value) else [];
    TagPrefix(name, "_p75");
    assert TaggedAmong(p, {Tag(name)});
    if m.histogram.Some? {
      HistogramColumnsDistinct(name, m.histogram.value);
      HistogramColumnsTagged(name, m.histogram.value);
    }
    assert TaggedAmong(hs, {Tag(name)});
    forall k | k in Keys(p)
      ensures k !in Keys(hs)
    {
      assert k == P75Key(name) && k[|name| + 1] == 'p';
    }
    DistinctAppend(p, hs);
    TaggedAppend(p, hs, {Tag(name)}, {Tag(name)});
    assert {Tag(name)} + {Tag(name)} == {Tag(name)};
  }

  /** Every column of several metrics carries the tag of one of their names. */
  lemma {:induction false} FixedColumnsTagged(metrics: Dict<MetricData>, names: seq<string>)
    requires forall i :: 0 <= i < |names| ==> |names[i]| >= 2
    ensures TaggedAmong(FixedColumns(metrics, names), TagsOf(names))
  {
    if names != [] {
      var n := |names| - 1;
      var init := names[..n];
      var name := names[n];
      var fc, mc := FixedColumns(metrics, init), MetricColumns(name, MetricNamed(metrics, name));
      assert FixedColumns(metrics, names) == fc + mc;
      FixedColumnsTagged(metrics, init);
      MetricColumnsDistinct(name, MetricNamed(metrics, name));
      TaggedAppend(fc, mc, TagsOf(init), {Tag(name)});
      assert TagsOf(init) + {Tag(name)} == TagsOf(names);
    }
  }

  /** The columns of several metrics whose names carry distinct tags never share a name. */
  lemma {:induction false} FixedColumnsDistinct(metrics: Dict<MetricData>, names: seq<string>)
    requires DistinctTags(names)
    ensures DistinctKeys(FixedColumns(metrics, names))
    ensures TaggedAmong(FixedColumns(metrics, names), TagsOf(names))
  {
    FixedColumnsTagged(metrics, names);
    if names != [] {
      var n := |names| - 1;
      var init := names[..n];
      var name := names[n];
      var fc, mc := FixedColumns(metrics, init), MetricColumns(name, MetricNamed(metrics, name));
      assert FixedColumns(metrics, names) == fc + mc;
      assert DistinctTags(init);
      FixedColumnsDistinct(metrics, init);
      MetricColumnsDistinct(name, MetricNamed(metrics, name));
      assert Tag(name) !in TagsOf(init);
      TaggedDisjoint(fc, mc, TagsOf(init), {Tag(name)});
      DistinctAppend(fc, mc);
    }
  }

  /** Column `t` of the device columns is device `t` of `fractions`. */
  lemma {:induction false} FractionColumnsAt(fractions: seq<(string, real)>)
    ensures |FractionColumns(fractions)| == |fractions|
    ensures forall t :: 0 <= t < |fractions| ==> FractionColumns(fractions)[t] == (FormFactorKey(fractions[t].0), Num(fractions[t].1))
  {
    if fractions != [] {
      var init := fractions[..|fractions| - 1];
      FractionColumnsAt(init);
      assert forall t :: 0 <= t < |init| ==> init[t] == fractions[t];
    }
  }

  lemma FormFactorColumnsDistinct(metrics: Dict<MetricData>)
    ensures DistinctKeys(FormFactorColumns(metrics))
    ensures TaggedAmong(FormFactorColumns(metrics), {"fo"})
  {
    if "form_factors" in Keys(metrics) {
      var fractions := MetricNamed(metrics, "form_factors").fractions.GetOr([]);
      var cs := FractionColumns(fractions);
      FractionColumnsAt(fractions);
      forall t | 0 <= t < |cs|
        ensures Tag(cs[t].0) in {"fo"}
      {
        TagPrefix("form_factor_", fractions[t].0);
        assert Tag("form_factor_") == "fo";
      }
      forall t, u | 0 <= t < u < |cs|
        ensures cs[t].0 != cs[u].0
      {
        var a := fractions[t].0;
        var b := fractions[u].0;
        assert a != b;
        assert FormFactorKey(a)[12..] == a && FormFactorKey(b)[12..] == b;
      }
    }
  }
}
