/**
 * `get_trends_by_woeid`: the trends of one location, returned as a list. 400 raises,
 * 429 sleeps fifteen minutes, other errors sleep 10 s; the first ok response ends the
 * loop, raising if it holds no trends.
 */
module Trends {
  import opened Wrappers
  import opened Http
  import opened Pagination
  import PaginationProperties
  import Text

  const TrendsPolicy := Policy({400}, SleepFor(900), SleepAndRetry(10), RaiseOnInvalid, RaiseOnEmpty, PlainShape, SinglePage)

  /** The only parameter: `max_trends` as a decimal string. */
  function TrendsParams(maxTrends: int): (params: Params)
    ensures params.Keys == {"max_trends"}
    ensures Text.ParseInt(params["max_trends"]) == Some(maxTrends)
  {
    Text.DecimalRoundTrip(maxTrends);
    map["max_trends" := Text.DecimalString(maxTrends)]
  }

  /** `get_trends_by_woeid`; the location id only appears in the URL path. The returned list is `t.records`. */
  method GetTrendsByWoeid(woeid: int, maxTrends: int, rs: seq<Response>) returns (t: Trace)
    ensures t == Run(TrendsPolicy, Start(TrendsPolicy, TrendsParams(maxTrends)), rs)
  {
    t := Execute(TrendsPolicy, TrendsParams(maxTrends), rs);
  }

  /** 400 raises; 429 sleeps 900 s and any other non-ok status 10 s, both resending without bound. */
  lemma StatusHandling(st: EngineState, r: Response, rest: seq<Response>)
    ensures r.status == 400 ==> Run(TrendsPolicy, st, [r] + rest) == Trace([], [st.params], [], Raised(HttpError(400)))
    ensures r.status == 429 ==> Run(TrendsPolicy, st, [r] + rest) == Prefixed([], [st.params], [900], Run(TrendsPolicy, st, rest))
    ensures !IsOk(r.status) && r.status !in {400, 429} ==>
      Run(TrendsPolicy, st, [r] + rest) == Prefixed([], [st.params], [10], Run(TrendsPolicy, st, rest))
    ensures IsOk(r.status) && r.valid && IsEmpty(r.data) ==>
      Run(TrendsPolicy, st, [r] + rest) == Trace([], [st.params], [], Raised(EmptyData))
  {
    assert ([r] + rest)[1..] == rest;
  }

  /**
   * The list comes from one response only: a call that returns gives exactly the
   * `data` of the ok response that ended it, and a call that raises (or is still
   * retrying) has returned nothing.
   */
  lemma ReturnsOnePage(maxTrends: int, rs: seq<Response>)
    ensures var t := Run(TrendsPolicy, Start(TrendsPolicy, TrendsParams(maxTrends)), rs);
      && (t.outcome != Finished ==> t.records == [])
      && (t.outcome == Finished ==>
            |t.requests| >= 1
            && IsOk(rs[|t.requests| - 1].status)
            && t.records == Records(PlainShape, rs[|t.requests| - 1].data.GetOr([]), rs[|t.requests| - 1].includes))
      && (forall k :: 0 <= k < |t.requests| - 1 ==> !IsOk(rs[k].status))
  {
    var st := Start(TrendsPolicy, TrendsParams(maxTrends));
    PaginationProperties.SinglePageAllOrNothing(TrendsPolicy, st, rs);
    PaginationProperties.SinglePageStopsAtFirstOk(TrendsPolicy, st, rs);
  }
}
