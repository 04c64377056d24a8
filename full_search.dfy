/**
 * `get_full_search` and `get_full_search_count`: the full-archive variants of the
 * recent search. They build the same parameters but use no rate limiter: 429 and
 * every other non-ok status other than 400 just sleep 5 s and resend.
 */
module FullSearch {
  import opened Wrappers
  import opened Http
  import opened Pagination
  import RecentSearch

  const SearchPolicy := Policy({400}, SleepFor(5), SleepAndRetry(5), NotValidated, YieldNothing, TweetShape,
                               Cursor("next_token", MetaRequired, KeyPresent))

  /** Counts are decoded with `model_validate_json` (a failure raises); only a truthy token continues. */
  const CountPolicy := Policy({400}, SleepFor(5), SleepAndRetry(5), RaiseOnInvalid, YieldNothing, PlainShape,
                              Cursor("next_token", MetaOptional, NonEmptyToken))

  /** The default granularity of the full-archive count. */
  const DefaultGranularity: Option<string> := Some("hour")

  /** The parameters are built exactly as for the recent search. */
  method GetFullSearch(query: string, startTime: Option<Timestamp>, endTime: Option<Timestamp>,
                       sinceId: Option<string>, untilId: Option<string>, sortOrder: Option<string>,
                       rs: seq<Response>) returns (t: Trace)
    ensures t == Run(SearchPolicy, Start(SearchPolicy, RecentSearch.SearchParams(query, startTime, endTime, sinceId, untilId, sortOrder)), rs)
  {
    t := Execute(SearchPolicy, RecentSearch.SearchParams(query, startTime, endTime, sinceId, untilId, sortOrder), rs);
  }

  function CountCall(query: string, startTime: Option<Timestamp>, endTime: Option<Timestamp>,
                     sinceId: Option<string>, untilId: Option<string>, granularity: Option<string>,
                     rs: seq<Response>): Trace
  {
    if !KnownGranularity(granularity) then Trace([], [], [], Raised(BadGranularity))
    else Run(CountPolicy, Start(CountPolicy, RecentSearch.CountParams(query, startTime, endTime, sinceId, untilId, granularity.value)), rs)
  }

  method GetFullSearchCount(query: string, startTime: Option<Timestamp>, endTime: Option<Timestamp>,
                            sinceId: Option<string>, untilId: Option<string>, granularity: Option<string>,
                            rs: seq<Response>) returns (t: Trace)
    ensures t == CountCall(query, startTime, endTime, sinceId, untilId, granularity, rs)
  {
    if granularity != Some("minute") && granularity != Some("hour") && granularity != Some("day") {
      return Trace([], [], [], Raised(BadGranularity));
    }
    t := Execute(CountPolicy, RecentSearch.CountParams(query, startTime, endTime, sinceId, untilId, granularity.value), rs);
  }

  /** The default "hour" passes the check and is sent; anything unknown raises before any request. */
  lemma GranularityCheckedFirst(query: string, startTime: Option<Timestamp>, endTime: Option<Timestamp>,
                                sinceId: Option<string>, untilId: Option<string>, granularity: Option<string>,
                                rs: seq<Response>)
    ensures !KnownGranularity(granularity) ==>
      CountCall(query, startTime, endTime, sinceId, untilId, granularity, rs) == Trace([], [], [], Raised(BadGranularity))
    ensures var t := CountCall(query, startTime, endTime, sinceId, untilId, DefaultGranularity, rs);
      t.requests != [] ==> t.requests[0]["granularity"] == "hour"
  {
    var t := CountCall(query, startTime, endTime, sinceId, untilId, DefaultGranularity, rs);
    if t.requests != [] {
      assert rs != [];
    }
  }

  /**
   * Status handling of both loops: 400 raises; 429 sleeps 5 s and any other non-ok
   * status sleeps 5 s, both resending the same request without bound.
   */
  lemma StatusHandling(p: Policy, st: EngineState, r: Response, rest: seq<Response>)
    requires p == SearchPolicy || p == CountPolicy
    ensures r.status == 400 ==> Run(p, st, [r] + rest) == Trace([], [st.params], [], Raised(HttpError(400)))
    ensures !IsOk(r.status) && r.status != 400 ==>
      Run(p, st, [r] + rest) == Prefixed([], [st.params], [5], Run(p, st, rest))
  {
    assert ([r] + rest)[1..] == rest;
  }

  /** No rate limiter is involved: the rate-limit headers and the clock never change the call. */
  lemma {:induction false} HeadersIgnored(p: Policy, st: EngineState, rs1: seq<Response>, rs2: seq<Response>)
    requires p == SearchPolicy || p == CountPolicy
    requires |rs1| == |rs2|
    requires forall k :: 0 <= k < |rs1| ==> rs1[k].(headers := rs2[k].headers, clock := rs2[k].clock) == rs2[k]
    ensures Run(p, st, rs1) == Run(p, st, rs2)
    decreases |rs1|
  {
    if rs1 != [] {
      assert rs1[0].(headers := rs2[0].headers, clock := rs2[0].clock) == rs2[0];
      assert Step(p, st, rs1[0]) == Step(p, st, rs2[0]);
      var s := Step(p, st, rs1[0]);
      if s.next.Again? {
        HeadersIgnored(p, s.next.state, rs1[1..], rs2[1..]);
      }
    }
  }

  /**
   * An ok search page yields its tweets with the page's `includes`; `meta` must be
   * present (a missing one raises), and without a `next_token` the call returns.
   */
  lemma SearchPage(st: EngineState, r: Response, rest: seq<Response>)
    requires IsOk(r.status)
    ensures var t := Run(SearchPolicy, st, [r] + rest);
      var items := r.data.GetOr([]);
      && t.records[..|items|] == Records(TweetShape, items, r.includes)
      && (r.meta.None? ==> t.outcome == Raised(MissingMeta))
      && (r.meta.Some? && r.meta.value.nextToken.None? ==> t.outcome == Finished && |t.records| == |items|)
  {
    var items := r.data.GetOr([]);
    assert DecodablePrefix(TweetShape, items) == |items|;
    assert items[..|items|] == items;
  }
}
