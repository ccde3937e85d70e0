/** The decoded reply of the Chrome UX Report `records:queryRecord` endpoint, as plain data.
    Every key the analyzer probes with `in` or `.get` is an `Option`; every JSON object the
    analyzer iterates or looks up by a data-dependent key is a `Dict`, which keeps the order
    in which the JSON listed its members, as a Python dict does. */
module CruxResponse {
  import opened Wrappers
  import opened OrderedDict

  /** A JSON number or string. The API sends most p75 values and bucket bounds as numbers,
      and those of cumulative layout shift as strings such as "0.05". */
  datatype Scalar = Num(x: real) | Str(s: string)

  /** `percentiles`: the only member read is `p75`. */
  datatype Percentiles = Percentiles(p75: Option<Scalar>)

  /** One histogram bucket. The last bucket of a metric has no `end`. */
  datatype Bucket = Bucket(start: Option<Scalar>, end: Option<Scalar>, density: Option<real>)

  /** One member of `record.metrics`. Performance metrics carry `percentiles` and `histogram`;
      the `form_factors` member carries `fractions` (device name to share of page loads). */
  datatype MetricData = MetricData(
    percentiles: Option<Percentiles>,
    histogram: Option<seq<Bucket>>,
    fractions: Option<Dict<real>>)

  datatype Record = Record(metrics: Option<Dict<MetricData>>)

  datatype UrlNormalization = UrlNormalization(originalUrl: Option<string>, normalizedUrl: Option<string>)

  /** The `error` object the API sends instead of a record; only its presence matters here. */
  datatype ApiError = ApiError(code: Option<Scalar>, status: Option<Scalar>, message: Option<Scalar>)

  datatype Response = Response(
    error: Option<ApiError>,
    record: Option<Record>,
    urlNormalizationDetails: Option<UrlNormalization>)

  /** The Python exceptions the analyzed code can raise on a response, and a failed transfer. */
  datatype Error = KeyError(key: string) | IndexError | ValueError | TransportError

  /** The metrics the request asks for, in the order the raw report lists them. */
  const RequestedMetrics: seq<string> := [
    "largest_contentful_paint",
    "first_contentful_paint",
    "interaction_to_next_paint",
    "experimental_time_to_first_byte",
    "cumulative_layout_shift"
  ]

  /** The `{}` that `metrics.get(name, {})` yields for an absent metric. */
  const NoMetric := MetricData(None, None, None)

  /** `data.get('record', {}).get('metrics', {})`. */
  function MetricsOf(data: Response): Dict<MetricData> {
    match data.record
    case None => []
    case Some(record) => record.metrics.GetOr([])
  }

  /** `data.get('urlNormalizationDetails', {}).get('originalUrl', '')`. */
  function OriginalUrl(data: Response): string {
    match data.urlNormalizationDetails
    case None => ""
    case Some(details) => details.originalUrl.GetOr("")
  }

  /** `data.get('urlNormalizationDetails', {}).get('normalizedUrl', '')`. */
  function NormalizedUrl(data: Response): string {
    match data.urlNormalizationDetails
    case None => ""
    case Some(details) => details.normalizedUrl.GetOr("")
  }

  /** `metrics.get(name, {})`. */
  function MetricNamed(metrics: Dict<MetricData>, name: string): MetricData {
    Lookup(metrics, name).GetOr(NoMetric)
  }
}
