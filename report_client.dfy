/** `query_crux_api`: what is left of it once the HTTP exchange is an input. */
module ReportClient {
  import opened Wrappers
  import opened CruxResponse

  /** The outcome of `requests.post(...).json()`: a decoded response, or an exception raised
      by the transport or by decoding a body that is not JSON. */
  datatype Reply = Received(data: Response) | Failed

  /** A metric the console loop can print: if it has `percentiles`, they hold `p75`. */
  predicate P75Printable(m: MetricData) {
    m.percentiles.Some? ==> m.percentiles.value.p75.Some?
  }

  /** The loop printing `values['percentiles']['p75']` for every metric with `percentiles`,
      in iteration order; it raises `KeyError('p75')` at the first one without `p75`. */
  function PrintP75s(metrics: seq<(string, MetricData)>): (r: Result<(), Error>)
    ensures r.Ok? <==> forall i :: 0 <= i < |metrics| ==> P75Printable(metrics[i].1)
    ensures r.Err? ==> r.error == KeyError("p75")
  {
    if metrics == [] then Ok(())
    else if !P75Printable(metrics[0].1) then Err(KeyError("p75"))
    else
      var rest := PrintP75s(metrics[1..]);
      assert forall i :: 1 <= i < |metrics| ==> metrics[i] == metrics[1..][i - 1];
      rest
  }

  /** The decoded response handed back to `main`, or the exception that escapes. A response
      carrying `error` is returned as it is: only its members are printed. */
  function QueryCrux(reply: Reply): (r: Result<Response, Error>)
    ensures reply.Failed? ==> r == Err(TransportError)
    ensures r.Ok? ==> reply == Received(r.value)
    ensures reply.Received? && reply.data.error.Some? ==> r == Ok(reply.data)
    ensures reply.Received? && reply.data.error.None? ==>
              (r.Ok? <==> forall i :: 0 <= i < |MetricsOf(reply.data)| ==> P75Printable(MetricsOf(reply.data)[i].1))
    ensures reply.Received? && r.Err? ==> r.error == KeyError("p75")
  {
    match reply
    case Failed => Err(TransportError)
    case Received(data) =>
      if data.error.Some? then Ok(data)
      else
        var _ :- PrintP75s(MetricsOf(data));
        Ok(data)
  }

  /** The printing loop over two runs of metrics, one after the other: it raises with the
      first run's error if there is one, and otherwise ends as the second run alone does. */
  lemma {:induction false} PrintP75sAppend(a: seq<(string, MetricData)>, b: seq<(string, MetricData)>)
    ensures PrintP75s(a + b) == if PrintP75s(a).Err? then PrintP75s(a) else PrintP75s(b)
  {
    if a != [] {
      assert (a + b)[0] == a[0];
      assert (a + b)[1..] == a[1..] + b;
      PrintP75sAppend(a[1..], b);
    } else {
      assert a + b == b;
    }
  }
}
