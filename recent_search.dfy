/**
 * `get_recent_search` and `get_recent_search_count`: tweets (or per-interval counts)
 * of the last seven days that match a query. 400 raises before the limiter sees the
 * response, 429 waits for the limiter's reset, other errors sleep 10 s and retry
 * without bound, and `meta.next_token` is sent back as `next_token`.
 */
module RecentSearch {
  import opened Wrappers
  import opened Http
  import opened Pagination
  import RateLimit
  import Fields

  const SearchPolicy := Policy({400}, WaitForReset, SleepAndRetry(10), NotValidated, YieldNothing, TweetShape,
                               Cursor("next_token", MetaRequired, KeyPresent))

  /** Counts are validated (a failure raises), and the loop goes on only while the token is truthy. */
  const CountPolicy := Policy({400}, WaitForReset, SleepAndRetry(10), RaiseOnInvalid, YieldNothing, PlainShape,
                              Cursor("next_token", MetaOptional, NonEmptyToken))

  /**
   * The search's starting parameters: query, the six selectors, `max_results` fixed at
   * 100, and each optional argument only when it is given (truthy). The local
   * `next_token` of the source is never assigned, so it adds nothing.
   */
  function SearchParams(query: string, startTime: Option<Timestamp>, endTime: Option<Timestamp>,
                        sinceId: Option<string>, untilId: Option<string>, sortOrder: Option<string>): (params: Params)
    ensures "query" in params && params["query"] == query
    ensures "max_results" in params && params["max_results"] == "100"
    ensures ("sort_order" in params) == Truthy(sortOrder)
    ensures Truthy(sortOrder) ==> params["sort_order"] == sortOrder.value
    ensures CarriesWindow(params, startTime, endTime, sinceId, untilId)
    ensures "next_token" !in params
  {
    AddIfTruthy(AddWindow(SearchBase(query), startTime, endTime, sinceId, untilId), "sort_order", sortOrder)
  }

  /** The fixed part of a search request: the selectors, the query and the page size. */
  function SearchBase(query: string): (base: Params)
    ensures "query" in base && base["query"] == query
    ensures "max_results" in base && base["max_results"] == "100"
    ensures "next_token" !in base && "sort_order" !in base && "start_time" !in base && "end_time" !in base
    ensures "since_id" !in base && "until_id" !in base
  {
    Fields.TweetSelectors["query" := query]["max_results" := "100"]
  }

  /** The count's starting parameters: the query, the optional arguments, and the granularity. */
  function CountParams(query: string, startTime: Option<Timestamp>, endTime: Option<Timestamp>,
                       sinceId: Option<string>, untilId: Option<string>, granularity: string): (params: Params)
    ensures "query" in params && params["query"] == query
    ensures "granularity" in params && params["granularity"] == granularity
    ensures CarriesWindow(params, startTime, endTime, sinceId, untilId)
    ensures "max_results" !in params && "next_token" !in params
  {
    AddWindow(map["query" := query], startTime, endTime, sinceId, untilId)["granularity" := granularity]
  }

  method GetRecentSearch(query: string, startTime: Option<Timestamp>, endTime: Option<Timestamp>,
                         sinceId: Option<string>, untilId: Option<string>, sortOrder: Option<string>,
                         rs: seq<Response>) returns (t: Trace)
    ensures t == Run(SearchPolicy, Start(SearchPolicy, SearchParams(query, startTime, endTime, sinceId, untilId, sortOrder)), rs)
  {
    t := Execute(SearchPolicy, SearchParams(query, startTime, endTime, sinceId, untilId, sortOrder), rs);
  }

  /** The count call: the granularity check comes before the session is even opened. */
  function CountCall(query: string, startTime: Option<Timestamp>, endTime: Option<Timestamp>,
                     sinceId: Option<string>, untilId: Option<string>, granularity: Option<string>,
                     rs: seq<Response>): Trace
  {
    if !KnownGranularity(granularity) then Trace([], [], [], Raised(BadGranularity))
    else Run(CountPolicy, Start(CountPolicy, CountParams(query, startTime, endTime, sinceId, untilId, granularity.value)), rs)
  }

  method GetRecentSearchCount(query: string, startTime: Option<Timestamp>, endTime: Option<Timestamp>,
                              sinceId: Option<string>, untilId: Option<string>, granularity: Option<string>,
                              rs: seq<Response>) returns (t: Trace)
    ensures t == CountCall(query, startTime, endTime, sinceId, untilId, granularity, rs)
  {
    if granularity != Some("minute") && granularity != Some("hour") && granularity != Some("day") {
      return Trace([], [], [], Raised(BadGranularity));
    }
    t := Execute(CountPolicy, CountParams(query, startTime, endTime, sinceId, untilId, granularity.value), rs);
  }

  /**
   * An unknown granularity, and so the default `None`, raises before any request; a
   * known one is sent with the first request.
   */
  lemma GranularityCheckedFirst(query: string, startTime: Option<Timestamp>, endTime: Option<Timestamp>,
                                sinceId: Option<string>, untilId: Option<string>, granularity: Option<string>,
                                rs: seq<Response>)
    ensures var t := CountCall(query, startTime, endTime, sinceId, untilId, granularity, rs);
      && (!KnownGranularity(granularity) ==> t.requests == [] && t.outcome == Raised(BadGranularity))
      && (t.requests != [] ==> KnownGranularity(granularity) && t.requests[0]["granularity"] == granularity.value)
      && CountCall(query, startTime, endTime, sinceId, untilId, None, rs).outcome == Raised(BadGranularity)
  {
    if KnownGranularity(granularity) {
      var t := CountCall(query, startTime, endTime, sinceId, untilId, granularity, rs);
      if t.requests != [] {
        assert rs != [];
      }
    }
  }

  /**
   * Status handling of both loops: 400 raises whatever the headers hold; 429 sleeps
   * until the announced reset and resends; any other non-ok status sleeps 10 s and
   * resends, with no bound on attempts.
   */
  lemma StatusHandling(p: Policy, st: EngineState, r: Response, rest: seq<Response>)
    requires p == SearchPolicy || p == CountPolicy
    ensures r.status == 400 ==> Run(p, st, [r] + rest) == Trace([], [st.params], [], Raised(HttpError(400)))
    ensures r.status == 429 && RateLimit.HeadersReadable(r.headers) ==>
      Run(p, st, [r] + rest)
        == Prefixed([], [st.params], [RateLimit.WaitSeconds(RateLimit.ResetFrom(r.headers), r.clock)], Run(p, st, rest))
    ensures !IsOk(r.status) && r.status !in {400, 429} && RateLimit.HeadersReadable(r.headers) ==>
      Run(p, st, [r] + rest) == Prefixed([], [st.params], [10], Run(p, st, rest))
  {
    assert ([r] + rest)[1..] == rest;
  }

  /**
   * An ok search page yields one `TweetResponse` per `data` item, in order, each with
   * the page's `includes` (or `{}`); missing `data` yields nothing. A `next_token`
   * in `meta` is sent back as `next_token`; without one the call ends, and without
   * `meta` it raises.
   */
  lemma SearchPage(st: EngineState, r: Response, rest: seq<Response>)
    requires IsOk(r.status) && RateLimit.HeadersReadable(r.headers)
    ensures var t := Run(SearchPolicy, st, [r] + rest);
      var items := r.data.GetOr([]);
      && t.records[..|items|] == Records(TweetShape, items, r.includes)
      && (forall k :: 0 <= k < |items| ==> t.records[k] == Tweet(items[k], r.includes.GetOr("{}")))
      && (r.meta.None? ==> t.outcome == Raised(MissingMeta))
      && (r.meta.Some? && r.meta.value.nextToken.None? ==> t.outcome == Finished && |t.records| == |items|)
      && (r.meta.Some? && r.meta.value.nextToken.Some? && rest != [] ==>
            |t.requests| > 1 && t.requests[1] == st.params["next_token" := r.meta.value.nextToken.value])
  {
    var items := r.data.GetOr([]);
    assert DecodablePrefix(TweetShape, items) == |items|;
    assert items[..|items|] == items;
    assert ([r] + rest)[1..] == rest;
    if r.meta.Some? && r.meta.value.nextToken.Some? && rest != [] {
      var st' := st.(params := st.params["next_token" := r.meta.value.nextToken.value], previous := Some(items));
      assert Step(SearchPolicy, st, r).next == Again(st');
      assert Run(SearchPolicy, st', rest).requests[0] == st'.params;
    }
  }

  /**
   * An ok count page that fails validation raises; one that validates yields its
   * buckets in order and continues only on a non-empty `next_token` (an absent `meta`
   * or an empty token ends the call).
   */
  lemma CountPage(st: EngineState, r: Response, rest: seq<Response>)
    requires IsOk(r.status) && RateLimit.HeadersReadable(r.headers)
    ensures var t := Run(CountPolicy, st, [r] + rest);
      && (!r.valid ==> t == Trace([], [st.params], [], Raised(InvalidPayload)))
      && (r.valid && (r.meta.None? || r.meta.value.nextToken.None? || r.meta.value.nextToken == Some("")) ==>
            t == Trace(Records(PlainShape, r.data.GetOr([]), r.includes), [st.params], [], Finished))
  {
    var items := r.data.GetOr([]);
    assert DecodablePrefix(PlainShape, items) == |items|;
    assert items[..|items|] == items;
  }
}
