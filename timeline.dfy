/**
 * `get_user_timeline_by_id`: the posts of one user's timeline, with the same
 * rate-limited loop as the recent search (400 raises, 429 waits for the reset, other
 * errors sleep 10 s) and an optional comma-joined `exclude` list.
 */
module Timeline {
  import opened Wrappers
  import opened Http
  import opened Pagination
  import RateLimit
  import Text
  import Fields

  const TimelinePolicy := Policy({400}, WaitForReset, SleepAndRetry(10), NotValidated, YieldNothing, TweetShape,
                                 Cursor("next_token", MetaRequired, KeyPresent))

  function TimelineParams(startTime: Option<Timestamp>, endTime: Option<Timestamp>,
                          sinceId: Option<string>, untilId: Option<string>, exclude: Option<seq<string>>): (params: Params)
    ensures "max_results" in params && params["max_results"] == "100"
    ensures ("exclude" in params) == TruthyList(exclude)
    ensures TruthyList(exclude) ==> params["exclude"] == Text.Join(exclude.value, ',')
    ensures CarriesWindow(params, startTime, endTime, sinceId, untilId)
    ensures "next_token" !in params
  {
    var base := Fields.TweetSelectors["max_results" := "100"];
    assert "next_token" !in base && "exclude" !in base;
    assert "start_time" !in base && "end_time" !in base && "since_id" !in base && "until_id" !in base;
    var windowed := AddWindow(base, startTime, endTime, sinceId, untilId);
    if TruthyList(exclude) then windowed["exclude" := Text.Join(exclude.value, ',')] else windowed
  }

  /** `get_user_timeline_by_id`; the user id only appears in the URL path. */
  method GetUserTimelineById(userId: string, startTime: Option<Timestamp>, endTime: Option<Timestamp>,
                             sinceId: Option<string>, untilId: Option<string>, exclude: Option<seq<string>>,
                             rs: seq<Response>) returns (t: Trace)
    ensures t == Run(TimelinePolicy, Start(TimelinePolicy, TimelineParams(startTime, endTime, sinceId, untilId, exclude)), rs)
  {
    t := Execute(TimelinePolicy, TimelineParams(startTime, endTime, sinceId, untilId, exclude), rs);
  }

  /** The `exclude` parameter splits back into the given entity names. */
  lemma ExcludeRoundTrip(startTime: Option<Timestamp>, endTime: Option<Timestamp>,
                         sinceId: Option<string>, untilId: Option<string>, exclude: seq<string>)
    requires exclude != []
    requires forall k :: 0 <= k < |exclude| ==> ',' !in exclude[k]
    ensures Text.Split(TimelineParams(startTime, endTime, sinceId, untilId, Some(exclude))["exclude"], ',') == exclude
  {
    Text.SplitJoin(exclude, ',');
  }

  /**
   * 400 raises without touching the limiter; 429 sleeps until the announced reset and
   * resends; any other non-ok status sleeps 10 s and resends, without bound.
   */
  lemma StatusHandling(st: EngineState, r: Response, rest: seq<Response>)
    ensures r.status == 400 ==>
      Run(TimelinePolicy, st, [r] + rest) == Trace([], [st.params], [], Raised(HttpError(400)))
    ensures r.status == 429 && RateLimit.HeadersReadable(r.headers) ==>
      Run(TimelinePolicy, st, [r] + rest)
        == Prefixed([], [st.params], [RateLimit.WaitSeconds(RateLimit.ResetFrom(r.headers), r.clock)], Run(TimelinePolicy, st, rest))
    ensures !IsOk(r.status) && r.status !in {400, 429} && RateLimit.HeadersReadable(r.headers) ==>
      Run(TimelinePolicy, st, [r] + rest) == Prefixed([], [st.params], [10], Run(TimelinePolicy, st, rest))
    ensures r.status != 400 && !RateLimit.HeadersReadable(r.headers) ==>
      Run(TimelinePolicy, st, [r] + rest) == Trace([], [st.params], [], Raised(MalformedHeader))
  {
    assert ([r] + rest)[1..] == rest;
  }
}
