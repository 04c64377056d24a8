/**
 * `get_rules` and `get_stream`: the active rule set, read page by page, and the
 * filtered tweet stream. Any non-ok rules response raises (429 included); an empty
 * page ends the listing. The stream always sends `backfill_minutes`.
 */
module FilteredStream {
  import opened Wrappers
  import opened Http
  import opened Pagination
  import opened Streaming
  import Text
  import Fields

  /**
   * The rules are validated (a failure raises), a page without rules returns, and
   * `meta.next_token` (read without a guard, so a missing `meta` raises) is followed
   * only while it is non-empty.
   */
  const RulesPolicy := Policy({}, NotSpecial, RaiseNotOk, RaiseOnInvalid, StopOnEmpty, PlainShape,
                              Cursor("pagination_token", MetaRequired, NonEmptyToken))

  /** `max_results` fixed at 500, and the rule ids joined with commas when any are given. */
  function RulesParams(ids: Option<seq<string>>): (params: Params)
    ensures "max_results" in params && params["max_results"] == "500"
    ensures ("ids" in params) == TruthyList(ids)
    ensures TruthyList(ids) ==> params["ids"] == Text.Join(ids.value, ',')
    ensures "pagination_token" !in params
  {
    var base := map["max_results" := "500"];
    if TruthyList(ids) then base["ids" := Text.Join(ids.value, ',')] else base
  }

  method GetRules(ids: Option<seq<string>>, rs: seq<Response>) returns (t: Trace)
    ensures t == Run(RulesPolicy, Start(RulesPolicy, RulesParams(ids)), rs)
  {
    t := Execute(RulesPolicy, RulesParams(ids), rs);
  }

  /** The `ids` parameter splits back into the given rule ids. */
  lemma RuleIdsRoundTrip(ids: seq<string>)
    requires ids != []
    requires forall k :: 0 <= k < |ids| ==> ',' !in ids[k]
    ensures Text.Split(RulesParams(Some(ids))["ids"], ',') == ids
  {
    Text.SplitJoin(ids, ',');
  }

  /**
   * Every non-ok status raises at once, 429 and 5xx included: the rules listing
   * neither waits nor retries.
   */
  lemma NotOkRaises(st: EngineState, r: Response, rest: seq<Response>)
    requires !IsOk(r.status)
    ensures Run(RulesPolicy, st, [r] + rest) == Trace([], [st.params], [], Raised(HttpError(r.status)))
  {
  }

  /**
   * An ok page raises when it does not validate, and returns without yielding when
   * it holds no rules, whatever its `meta` says.
   */
  lemma EmptyPageReturns(st: EngineState, r: Response, rest: seq<Response>)
    requires IsOk(r.status)
    ensures !r.valid ==> Run(RulesPolicy, st, [r] + rest) == Trace([], [st.params], [], Raised(InvalidPayload))
    ensures r.valid && IsEmpty(r.data) ==> Run(RulesPolicy, st, [r] + rest) == Trace([], [st.params], [], Finished)
  {
  }

  /**
   * A page with rules yields all of them in order. A non-empty `next_token` becomes
   * `pagination_token` of the next request; an absent or empty one returns; a missing
   * `meta` raises.
   */
  lemma RulesPage(st: EngineState, r: Response, rest: seq<Response>)
    requires IsOk(r.status) && r.valid && !IsEmpty(r.data)
    ensures var t := Run(RulesPolicy, st, [r] + rest);
      && t.records[..|r.data.value|] == Records(PlainShape, r.data.value, r.includes)
      && (r.meta.None? ==> t == Trace(Records(PlainShape, r.data.value, r.includes), [st.params], [], Raised(MissingMeta)))
      && (r.meta.Some? && r.meta.value.nextToken.GetOr("") == "" ==>
            t == Trace(Records(PlainShape, r.data.value, r.includes), [st.params], [], Finished))
      && (r.meta.Some? && r.meta.value.nextToken.GetOr("") != "" && rest != [] ==>
            |t.requests| > 1 && t.requests[1] == st.params["pagination_token" := r.meta.value.nextToken.value])
  {
    var items := r.data.value;
    assert DecodablePrefix(PlainShape, items) == |items|;
    assert items[..|items|] == items;
    assert ([r] + rest)[1..] == rest;
    if r.meta.Some? && r.meta.value.nextToken.GetOr("") != "" && rest != [] {
      var st' := st.(params := st.params["pagination_token" := r.meta.value.nextToken.value], previous := Some(items));
      assert Step(RulesPolicy, st, r).next == Again(st');
      assert Run(RulesPolicy, st', rest).requests[0] == st'.params;
    }
  }

  /** The stream's parameters: the six selectors, `backfill_minutes`, and the optional window. */
  function StreamParams(backfillMinutes: int, startTime: Option<Timestamp>, endTime: Option<Timestamp>): (params: Params)
    ensures "backfill_minutes" in params && Text.ParseInt(params["backfill_minutes"]) == Some(backfillMinutes)
    ensures ("start_time" in params) == startTime.Some? && ("end_time" in params) == endTime.Some?
    ensures startTime.Some? ==> params["start_time"] == startTime.value
    ensures endTime.Some? ==> params["end_time"] == endTime.value
  {
    Text.DecimalRoundTrip(backfillMinutes);
    var base := Fields.TweetSelectors["backfill_minutes" := Text.DecimalString(backfillMinutes)];
    assert "start_time" !in base && "end_time" !in base;
    AddTime(AddTime(base, "start_time", startTime), "end_time", endTime)
  }

  /** `get_stream` against the scripted connections `cs`. */
  method GetStream(backfillMinutes: int, startTime: Option<Timestamp>, endTime: Option<Timestamp>,
                   cs: seq<Connection>) returns (t: Trace)
    ensures t == StreamRun(FilteredTweets, StreamParams(backfillMinutes, startTime, endTime), cs)
  {
    t := RunStream(FilteredTweets, StreamParams(backfillMinutes, startTime, endTime), cs);
  }

  /**
   * Every connection, the first and every reconnect, is opened with the same
   * parameters, so a backfill of 0 is sent as "0" each time.
   */
  lemma EveryConnectionSendsBackfill(backfillMinutes: int, startTime: Option<Timestamp>, endTime: Option<Timestamp>,
                                     cs: seq<Connection>)
    ensures var t := StreamRun(FilteredTweets, StreamParams(backfillMinutes, startTime, endTime), cs);
      forall q :: q in t.requests ==>
        "backfill_minutes" in q && Text.ParseInt(q["backfill_minutes"]) == Some(backfillMinutes)
  {
    Streaming.NeverFinishes(FilteredTweets, StreamParams(backfillMinutes, startTime, endTime), cs);
  }
}
