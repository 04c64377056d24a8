/**
 * `get_tweets_by_id`: one request for up to a hundred tweets. A non-ok status raises
 * before anything is yielded; otherwise each `data` item is paired with the
 * response's `includes`. There is no loop, so the call is a function of the one
 * response the server gives.
 */
module TweetLookup {
  import opened Wrappers
  import opened Http
  import opened Pagination
  import Text
  import Fields

  function TweetsParams(ids: seq<string>): (params: Params)
    ensures params.Keys == Fields.TweetSelectors.Keys + {"ids"}
    ensures "ids" in params && params["ids"] == Text.Join(ids, ',')
    ensures forall k :: k in Fields.TweetSelectors ==> k in params && params[k] == Fields.TweetSelectors[k]
  {
    assert "ids" !in Fields.TweetSelectors;
    Fields.TweetSelectors["ids" := Text.Join(ids, ',')]
  }

  /** The call against the server's single response `r`. */
  function GetTweetsById(ids: seq<string>, r: Response): (t: Trace)
    ensures t.requests == [TweetsParams(ids)] && t.sleeps == []
    ensures !IsOk(r.status) ==> t.records == [] && t.outcome == Raised(HttpError(r.status))
    ensures IsOk(r.status) ==> t.outcome == Finished && |t.records| == |r.data.GetOr([])|
    ensures IsOk(r.status) ==>
      forall k :: 0 <= k < |t.records| ==> t.records[k] == Tweet(r.data.GetOr([])[k], r.includes.GetOr("{}"))
  {
    if !IsOk(r.status) then Trace([], [TweetsParams(ids)], [], Raised(HttpError(r.status)))
    else Trace(Records(TweetShape, r.data.GetOr([]), r.includes), [TweetsParams(ids)], [], Finished)
  }

  /** The loop engine under a policy that never retries and never pages. */
  const SingleShot := Policy({}, NotSpecial, RaiseNotOk, NotValidated, YieldNothing, TweetShape, SinglePage)

  /**
   * The function agrees with the shared loop run with no retry and no paging: whatever
   * the server would have sent next, exactly one request is made.
   */
  lemma AgreesWithSingleShotLoop(ids: seq<string>, r: Response, rest: seq<Response>)
    ensures GetTweetsById(ids, r) == Run(SingleShot, Start(SingleShot, TweetsParams(ids)), [r] + rest)
  {
    var items := r.data.GetOr([]);
    assert DecodablePrefix(TweetShape, items) == |items|;
    assert items[..|items|] == items;
  }

  /** The `ids` parameter splits back into the given ids. */
  lemma IdsRoundTrip(ids: seq<string>)
    requires ids != []
    requires forall k :: 0 <= k < |ids| ==> ',' !in ids[k]
    ensures Text.Split(TweetsParams(ids)["ids"], ',') == ids
  {
    Text.SplitJoin(ids, ',');
  }
}
