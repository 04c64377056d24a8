/**
 * `get_retweets`: the users who retweeted one tweet, each item decoded as a `User`.
 * No rate limiter: 429 and other errors but 400 sleep 5 s; a whole-page validation
 * failure is only logged.
 */
module Retweets {
  import opened Wrappers
  import opened Http
  import opened Pagination
  import Fields

  const RetweetPolicy := Policy({400}, SleepFor(5), SleepAndRetry(5), NotValidated, YieldNothing, UserDecodeShape,
                                Cursor("pagination_token", MetaRequired, KeyPresent))

  /** The local `pagination_token` of the source is never assigned, so it adds nothing. */
  function RetweetParams(): (params: Params)
    ensures params.Keys == {"tweet.fields", "expansions", "user.fields", "max_results"}
    ensures params["expansions"] == Fields.UserExpansions && params["max_results"] == "100"
  {
    map["tweet.fields" := Fields.TweetFields, "expansions" := Fields.UserExpansions,
        "user.fields" := Fields.UserFields, "max_results" := "100"]
  }

  /** `get_retweets`; the tweet id only appears in the URL path. */
  method GetRetweets(id: string, rs: seq<Response>) returns (t: Trace)
    ensures t == Run(RetweetPolicy, Start(RetweetPolicy, RetweetParams()), rs)
  {
    t := Execute(RetweetPolicy, RetweetParams(), rs);
  }

  /** 400 raises; 429 and any other non-ok status sleep 5 s and resend, without bound. */
  lemma StatusHandling(st: EngineState, r: Response, rest: seq<Response>)
    ensures r.status == 400 ==> Run(RetweetPolicy, st, [r] + rest) == Trace([], [st.params], [], Raised(HttpError(400)))
    ensures !IsOk(r.status) && r.status != 400 ==>
      Run(RetweetPolicy, st, [r] + rest) == Prefixed([], [st.params], [5], Run(RetweetPolicy, st, rest))
  {
    assert ([r] + rest)[1..] == rest;
  }

  /**
   * The users of an ok page are yielded in order until the first one that fails to
   * decode; that failure is not caught and ends the call.
   */
  lemma UndecodableUserAborts(st: EngineState, r: Response, rest: seq<Response>, k: nat)
    requires IsOk(r.status) && r.data.Some? && k < |r.data.value|
    requires !r.data.value[k].decodesAsUser
    requires forall j :: 0 <= j < k ==> r.data.value[j].decodesAsUser
    ensures Run(RetweetPolicy, st, [r] + rest)
         == Trace(Records(UserDecodeShape, r.data.value[..k], r.includes), [st.params], [], Raised(UndecodableItem))
  {
    assert DecodablePrefix(UserDecodeShape, r.data.value) == k;
  }

  /** A page whose users all decode is yielded whole; `meta` is required, and without a token the call returns. */
  lemma RetweetPage(st: EngineState, r: Response, rest: seq<Response>)
    requires IsOk(r.status) && r.data.Some?
    requires forall j :: 0 <= j < |r.data.value| ==> r.data.value[j].decodesAsUser
    ensures var t := Run(RetweetPolicy, st, [r] + rest);
      && t.records[..|r.data.value|] == Records(UserDecodeShape, r.data.value, r.includes)
      && (r.meta.None? ==> t.outcome == Raised(MissingMeta))
      && (r.meta.Some? && r.meta.value.nextToken.None? ==> t.outcome == Finished)
  {
    var items := r.data.value;
    assert DecodablePrefix(UserDecodeShape, items) == |items|;
    assert items[..|items|] == items;
  }
}
