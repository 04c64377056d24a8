/**
 * `get_users_by_username` and `get_users_by_ids`: one lookup of up to a hundred users.
 * Every response first goes to the rate limiter; 429 waits for the reset and resends;
 * any other non-ok status raises; the first ok response is the only page.
 */
module UserLookup {
  import opened Wrappers
  import opened Http
  import opened Pagination
  import PaginationProperties
  import RateLimit
  import Text
  import Fields

  /**
   * A validation failure is only logged, after which `users` is whatever was bound
   * before, which on the only page is nothing: it raises as an unbound name.
   */
  const LookupPolicy := Policy({}, WaitForReset, RaiseNotOk, ReusePrevious(false), RaiseOnEmpty, PlainShape, SinglePage)

  function UsernameParams(usernames: seq<string>): (params: Params)
    ensures params.Keys == {"usernames", "user.fields"}
    ensures params["usernames"] == Text.Join(usernames, ',')
  {
    map["usernames" := Text.Join(usernames, ','), "user.fields" := Fields.UserFields]
  }

  function IdParams(ids: seq<string>): (params: Params)
    ensures params.Keys == {"ids", "user.fields"}
    ensures params["ids"] == Text.Join(ids, ',')
  {
    map["ids" := Text.Join(ids, ','), "user.fields" := Fields.UserFields]
  }

  method GetUsersByUsername(usernames: seq<string>, rs: seq<Response>) returns (t: Trace)
    ensures t == Run(LookupPolicy, Start(LookupPolicy, UsernameParams(usernames)), rs)
  {
    t := Execute(LookupPolicy, UsernameParams(usernames), rs);
  }

  method GetUsersByIds(ids: seq<string>, rs: seq<Response>) returns (t: Trace)
    ensures t == Run(LookupPolicy, Start(LookupPolicy, IdParams(ids)), rs)
  {
    t := Execute(LookupPolicy, IdParams(ids), rs);
  }

  /** The joined parameter splits back into the given names (or ids). */
  lemma JoinedNamesRoundTrip(names: seq<string>)
    requires names != []
    requires forall k :: 0 <= k < |names| ==> ',' !in names[k]
    ensures Text.Split(UsernameParams(names)["usernames"], ',') == names
    ensures Text.Split(IdParams(names)["ids"], ',') == names
  {
    Text.SplitJoin(names, ',');
  }

  /**
   * The headers are read before any status check, so unreadable headers raise on
   * every status; 429 sleeps until the reset and resends; every other non-ok status,
   * 5xx included, raises.
   */
  lemma StatusHandling(st: EngineState, r: Response, rest: seq<Response>)
    ensures !RateLimit.HeadersReadable(r.headers) ==>
      Run(LookupPolicy, st, [r] + rest) == Trace([], [st.params], [], Raised(MalformedHeader))
    ensures r.status == 429 && RateLimit.HeadersReadable(r.headers) ==>
      Run(LookupPolicy, st, [r] + rest)
        == Prefixed([], [st.params], [RateLimit.WaitSeconds(RateLimit.ResetFrom(r.headers), r.clock)], Run(LookupPolicy, st, rest))
    ensures !IsOk(r.status) && r.status != 429 && RateLimit.HeadersReadable(r.headers) ==>
      Run(LookupPolicy, st, [r] + rest) == Trace([], [st.params], [], Raised(HttpError(r.status)))
  {
    assert ([r] + rest)[1..] == rest;
  }

  /**
   * One page at most: every request but the last met a 429, and users are yielded
   * only when the call ends normally, all of them from that one ok response.
   */
  lemma AtMostOnePage(params: Params, rs: seq<Response>)
    ensures var t := Run(LookupPolicy, Start(LookupPolicy, params), rs);
      && (forall k :: 0 <= k < |t.requests| - 1 ==> rs[k].status == 429)
      && (t.outcome != Finished ==> t.records == [])
      && (t.outcome == Finished ==> |t.requests| >= 1 && IsOk(rs[|t.requests| - 1].status))
  {
    var st := Start(LookupPolicy, params);
    PaginationProperties.SinglePageStopsAtFirstOk(LookupPolicy, st, rs);
    RecordsOnlyAtTheEnd(st, rs);
  }

  /** Records appear only when the call finishes; a finished call ended on an ok response. */
  lemma {:induction false} RecordsOnlyAtTheEnd(st: EngineState, rs: seq<Response>)
    requires st.previous.None?
    ensures var t := Run(LookupPolicy, st, rs);
      && (t.outcome != Finished ==> t.records == [])
      && (t.outcome == Finished ==> |t.requests| >= 1 && IsOk(rs[|t.requests| - 1].status))
    decreases |rs|
  {
    if rs != [] {
      var s := Step(LookupPolicy, st, rs[0]);
      var items := rs[0].data.GetOr([]);
      assert DecodablePrefix(PlainShape, items) == |items|;
      assert items[..|items|] == items;
      if s.next.Again? {
        assert s.next.state == st;
        RecordsOnlyAtTheEnd(st, rs[1..]);
        var t' := Run(LookupPolicy, st, rs[1..]);
        if t'.outcome == Finished {
          assert rs[1..][|t'.requests| - 1] == rs[|t'.requests|];
        }
      }
    }
  }

  /**
   * The one ok page: when it validates, all its users are yielded in order and the
   * call returns; when it has no users, the call raises.
   */
  lemma OkPageYieldsUsers(st: EngineState, r: Response, rest: seq<Response>)
    requires st.previous.None? && IsOk(r.status) && RateLimit.HeadersReadable(r.headers) && r.valid
    ensures !IsEmpty(r.data) ==>
      Run(LookupPolicy, st, [r] + rest) == Trace(Records(PlainShape, r.data.value, r.includes), [st.params], [], Finished)
    ensures IsEmpty(r.data) ==> Run(LookupPolicy, st, [r] + rest) == Trace([], [st.params], [], Raised(EmptyData))
  {
    if !IsEmpty(r.data) {
      var items := r.data.value;
      assert DecodablePrefix(PlainShape, items) == |items|;
      assert items[..|items|] == items;
    }
  }

  /**
   * However many 429s come first, an ok response that fails validation raises: no
   * earlier result was ever bound.
   */
  lemma {:induction false} InvalidPageRaises(st: EngineState, rs: seq<Response>, k: nat)
    requires st.previous.None?
    requires k < |rs|
    requires forall j :: 0 <= j < k ==> rs[j].status == 429 && RateLimit.HeadersReadable(rs[j].headers)
    requires IsOk(rs[k].status) && RateLimit.HeadersReadable(rs[k].headers) && !rs[k].valid
    ensures Run(LookupPolicy, st, rs).records == [] && Run(LookupPolicy, st, rs).outcome == Raised(UnboundResult)
    decreases k
  {
    if k > 0 {
      assert Step(LookupPolicy, st, rs[0]).next == Again(st);
      InvalidPageRaises(st, rs[1..], k - 1);
    }
  }
}
