/**
 * `get_quote_tweets`: the tweets quoting one tweet. No rate limiter: 429 sleeps 60 s,
 * other errors but 400 sleep 5 s. `meta` is read with a default, and an `errors`
 * key is only logged.
 */
module QuoteTweets {
  import opened Wrappers
  import opened Http
  import opened Pagination
  import PaginationProperties
  import Fields

  const QuotePolicy := Policy({400}, SleepFor(60), SleepAndRetry(5), NotValidated, YieldNothing, TweetShape,
                              Cursor("pagination_token", MetaOptional, KeyPresent))

  function QuoteParams(startTime: Option<Timestamp>, endTime: Option<Timestamp>,
                       sinceId: Option<string>, untilId: Option<string>): (params: Params)
    ensures "max_results" in params && params["max_results"] == "100"
    ensures CarriesWindow(params, startTime, endTime, sinceId, untilId)
    ensures "pagination_token" !in params
  {
    var base := Fields.TweetSelectors["max_results" := "100"];
    assert "pagination_token" !in base && "start_time" !in base && "end_time" !in base;
    assert "since_id" !in base && "until_id" !in base;
    AddWindow(base, startTime, endTime, sinceId, untilId)
  }

  /** `get_quote_tweets`; the tweet id only appears in the URL path. */
  method GetQuoteTweets(id: string, startTime: Option<Timestamp>, endTime: Option<Timestamp>,
                        sinceId: Option<string>, untilId: Option<string>, rs: seq<Response>) returns (t: Trace)
    ensures t == Run(QuotePolicy, Start(QuotePolicy, QuoteParams(startTime, endTime, sinceId, untilId)), rs)
  {
    t := Execute(QuotePolicy, QuoteParams(startTime, endTime, sinceId, untilId), rs);
  }

  /** 400 raises; 429 sleeps 60 s and any other non-ok status 5 s, both resending without bound. */
  lemma StatusHandling(st: EngineState, r: Response, rest: seq<Response>)
    ensures r.status == 400 ==> Run(QuotePolicy, st, [r] + rest) == Trace([], [st.params], [], Raised(HttpError(400)))
    ensures r.status == 429 ==> Run(QuotePolicy, st, [r] + rest) == Prefixed([], [st.params], [60], Run(QuotePolicy, st, rest))
    ensures !IsOk(r.status) && r.status !in {400, 429} ==>
      Run(QuotePolicy, st, [r] + rest) == Prefixed([], [st.params], [5], Run(QuotePolicy, st, rest))
  {
    assert ([r] + rest)[1..] == rest;
  }

  /** An `errors` key (or any validation failure) never changes what the call does. */
  lemma ErrorsOnlyLogged(st: EngineState, rs1: seq<Response>, rs2: seq<Response>)
    requires |rs1| == |rs2|
    requires forall k :: 0 <= k < |rs1| ==> rs1[k].(valid := rs2[k].valid, hasErrors := rs2[k].hasErrors) == rs2[k]
    ensures Run(QuotePolicy, st, rs1) == Run(QuotePolicy, st, rs2)
  {
    PaginationProperties.IgnoresValidityAndErrors(QuotePolicy, st, rs1, rs2);
  }

  /**
   * An ok page yields its tweets; a missing `meta` ends the call cleanly, and a
   * `next_token` is sent back as `pagination_token`.
   */
  lemma QuotePage(st: EngineState, r: Response, rest: seq<Response>)
    requires IsOk(r.status)
    ensures var t := Run(QuotePolicy, st, [r] + rest);
      var items := r.data.GetOr([]);
      && t.records[..|items|] == Records(TweetShape, items, r.includes)
      && ((r.meta.None? || r.meta.value.nextToken.None?) ==> t.outcome == Finished && |t.records| == |items|)
      && (r.meta.Some? && r.meta.value.nextToken.Some? && rest != [] ==>
            |t.requests| > 1 && t.requests[1] == st.params["pagination_token" := r.meta.value.nextToken.value])
  {
    var items := r.data.GetOr([]);
    assert DecodablePrefix(TweetShape, items) == |items|;
    assert items[..|items|] == items;
    assert ([r] + rest)[1..] == rest;
    if r.meta.Some? && r.meta.value.nextToken.Some? && rest != [] {
      var st' := st.(params := st.params["pagination_token" := r.meta.value.nextToken.value], previous := Some(items));
      assert Step(QuotePolicy, st, r).next == Again(st');
      assert Run(QuotePolicy, st', rest).requests[0] == st'.params;
    }
  }
}
