/**
 * `get_followers_by_id` and `get_following_by_id`: the follower (or followed) users of
 * one account, a page per request. Client errors 400-404 raise before the limiter sees
 * the response, 429 waits for the limiter's reset, and other errors are retried under
 * a counter.
 */
module Followers {
  import opened Wrappers
  import opened Http
  import opened Pagination
  import PaginationProperties
  import RateLimit
  import Text
  import Fields

  /** The keyword arguments both functions take. */
  datatype Options = Options(
    maxResults: int,
    raiseOn503: bool,
    raiseOnInvalid: bool,
    sleepOnNotOk: int,
    triesOnNotOk: int)

  const Defaults := Options(1000, false, false, 10, -1)

  /** Statuses that raise before the headers reach the limiter. */
  const EarlyFatal: set<int> := {400, 401, 402, 403, 404}

  /**
   * The retry counter as the code initialises it: `num_tries_on_not_ok + 1`. The
   * documented "-1 means unlimited" therefore starts the counter at 0.
   */
  function AsWrittenTries(triesOnNotOk: int): int {
    triesOnNotOk + 1
  }

  /**
   * The counter the documentation describes: -1 means no limit (a counter that never
   * reaches zero), and N >= 0 allows N retries exactly as the code does.
   */
  function IntendedTries(triesOnNotOk: int): (c: int)
    ensures triesOnNotOk == -1 ==> c < 0
    ensures triesOnNotOk != -1 ==> c == AsWrittenTries(triesOnNotOk)
  {
    if triesOnNotOk == -1 then -1 else triesOnNotOk + 1
  }

  /** The loop as the code runs it, with the counter as written. */
  function FollowPolicy(o: Options): Policy {
    Policy(EarlyFatal, WaitForReset,
           BoundedRetry(o.sleepOnNotOk, o.raiseOn503, AsWrittenTries(o.triesOnNotOk)),
           ReusePrevious(o.raiseOnInvalid), RaiseOnEmpty, PlainShape,
           Cursor("pagination_token", MetaRequired, KeyPresent))
  }

  /** The loop with the documented counter; it differs from the code only for -1. */
  function IntendedPolicy(o: Options): Policy {
    FollowPolicy(o).(onNotOk := BoundedRetry(o.sleepOnNotOk, o.raiseOn503, IntendedTries(o.triesOnNotOk)))
  }

  /** The starting parameters: the user field selector and `max_results` as a decimal string. */
  function FollowParams(o: Options): (params: Params)
    ensures params.Keys == {"user.fields", "max_results"}
    ensures params["user.fields"] == Fields.UserFields
    ensures Text.ParseInt(params["max_results"]) == Some(o.maxResults)
  {
    Text.DecimalRoundTrip(o.maxResults);
    map["user.fields" := Fields.UserFields, "max_results" := Text.DecimalString(o.maxResults)]
  }

  /**
   * `get_followers_by_id`; the user `id` only appears in the URL path. The counter is
   * the code's; `IntendedPolicy` is the documented one, which differs only for -1.
   */
  method GetFollowersById(id: string, o: Options, rs: seq<Response>) returns (t: Trace)
    ensures t == Run(FollowPolicy(o), Start(FollowPolicy(o), FollowParams(o)), rs)
  {
    t := Execute(FollowPolicy(o), FollowParams(o), rs);
  }

  /** `get_following_by_id`: the same loop against the `following` URL. */
  method GetFollowingById(id: string, o: Options, rs: seq<Response>) returns (t: Trace)
    ensures t == Run(FollowPolicy(o), Start(FollowPolicy(o), FollowParams(o)), rs)
  {
    t := Execute(FollowPolicy(o), FollowParams(o), rs);
  }

  /** A client error raises at once, whatever the headers hold: the limiter never reads them. */
  lemma ClientErrorRaisesFirst(o: Options, st: EngineState, r: Response, rest: seq<Response>)
    requires r.status in EarlyFatal
    ensures Run(FollowPolicy(o), st, [r] + rest) == Trace([], [st.params], [], Raised(HttpError(r.status)))
  {
  }

  /**
   * A 429 sleeps until the reset the same response announced (at least one second) and
   * sends the same request again; the retry counter is untouched.
   */
  lemma RateLimitedWaitsForReset(o: Options, st: EngineState, r: Response, rest: seq<Response>)
    requires r.status == 429 && RateLimit.HeadersReadable(r.headers)
    ensures var w := RateLimit.WaitSeconds(RateLimit.ResetFrom(r.headers), r.clock);
      && w >= 1
      && Run(FollowPolicy(o), st, [r] + rest) == Prefixed([], [st.params], [w], Run(FollowPolicy(o), st, rest))
  {
    assert ([r] + rest)[1..] == rest;
  }

  /** With `raise_exception_on_http_503`, a 503 raises whatever the counter says. */
  lemma Raise503BeforeCounter(o: Options, st: EngineState, r: Response, rest: seq<Response>)
    requires o.raiseOn503 && r.status == 503 && RateLimit.HeadersReadable(r.headers)
    ensures Run(FollowPolicy(o), st, [r] + rest) == Trace([], [st.params], [], Raised(HttpError(503)))
  {
  }

  /**
   * For `num_tries_on_not_ok = N >= 0` the call stops silently at the (N+1)-th
   * retryable error counted over the whole call, successful pages in between included,
   * and never earlier.
   */
  lemma RetriesUntilCounterSpent(o: Options, rs: seq<Response>)
    requires o.triesOnNotOk >= 0
    ensures var p := FollowPolicy(o);
      var t := Run(p, Start(p, FollowParams(o)), rs);
      var n := PaginationProperties.Transients(p, rs[..|t.requests|]);
      n <= o.triesOnNotOk + 1 && (t.outcome == GaveUp <==> n == o.triesOnNotOk + 1)
  {
    var p := FollowPolicy(o);
    PaginationProperties.GivesUpWhenBudgetSpent(p, Start(p, FollowParams(o)), rs);
  }

  /** As written, `num_tries_on_not_ok = -1` gives up at the very first retryable error, without sleeping. */
  lemma MinusOneGivesUpAtFirstError(o: Options, r: Response, rest: seq<Response>)
    requires o.triesOnNotOk == -1
    requires PaginationProperties.CountsAgainstBudget(FollowPolicy(o), r)
    ensures var p := FollowPolicy(o);
      Run(p, Start(p, FollowParams(o)), [r] + rest) == Trace([], [FollowParams(o)], [], GaveUp)
  {
    var p := FollowPolicy(o);
    PaginationProperties.ZeroBudgetGivesUpAtOnce(p, Start(p, FollowParams(o)), r, rest);
  }

  /** As written, counter 0 (from -1) and counter 1 (from 0) lead to the same call, step by step. */
  lemma {:induction false} CounterZeroMatchesOne(o: Options, st: EngineState, rs: seq<Response>)
    requires o.triesOnNotOk == -1
    ensures Run(FollowPolicy(o), st.(tries := 0), rs)
         == Run(FollowPolicy(o.(triesOnNotOk := 0)), st.(tries := 1), rs)
    decreases |rs|
  {
    if rs != [] {
      var p0, p1 := FollowPolicy(o), FollowPolicy(o.(triesOnNotOk := 0));
      var s0, s1 := Step(p0, st.(tries := 0), rs[0]), Step(p1, st.(tries := 1), rs[0]);
      assert s0.emitted == s1.emitted && s0.slept == s1.slept;
      if s0.next.Again? {
        assert s1.next.Again?;
        var st' := s0.next.state;
        assert st'.tries == 0 && s1.next.state == st'.(tries := 1);
        CounterZeroMatchesOne(o, st', rs[1..]);
      }
    }
  }

  /** So, as written, -1 is not "unlimited": it behaves exactly like 0. */
  lemma MinusOneBehavesLikeZero(o: Options, rs: seq<Response>)
    requires o.triesOnNotOk == -1
    ensures var p0, p1 := FollowPolicy(o), FollowPolicy(o.(triesOnNotOk := 0));
      Run(p0, Start(p0, FollowParams(o)), rs) == Run(p1, Start(p1, FollowParams(o)), rs)
  {
    var st := Start(FollowPolicy(o), FollowParams(o));
    CounterZeroMatchesOne(o, st, rs);
    assert st.(tries := 0) == st;
  }

  /**
   * With the documented counter, -1 never gives up, whatever the server sends; every
   * other value behaves exactly as written.
   */
  lemma IntendedMinusOneRetriesForever(o: Options, rs: seq<Response>)
    ensures o.triesOnNotOk == -1 ==>
      Run(IntendedPolicy(o), Start(IntendedPolicy(o), FollowParams(o)), rs).outcome != GaveUp
    ensures o.triesOnNotOk != -1 ==> IntendedPolicy(o) == FollowPolicy(o)
  {
    if o.triesOnNotOk == -1 {
      var p := IntendedPolicy(o);
      PaginationProperties.NegativeBudgetNeverGivesUp(p, Start(p, FollowParams(o)), rs);
    }
  }

  /**
   * Without the raise flag, a page that fails validation reuses the previous page's
   * `users`: the same users are yielded a second time, and the new page's own `meta`
   * decides whether the loop goes on.
   */
  lemma StaleUsersReplayed(o: Options, st: EngineState, r1: Response, r2: Response)
    requires !o.raiseOnInvalid
    requires PaginationProperties.CleanPage(FollowPolicy(o), r1) && PaginationProperties.HasToken(r1)
    requires r2.status == 200 && RateLimit.HeadersReadable(r2.headers) && !r2.valid
    requires r2.meta == Some(Meta(None))
    ensures var t := Run(FollowPolicy(o), st, [r1, r2]);
      var page := Records(PlainShape, r1.data.value, r1.includes);
      t.records == page + page && t.outcome == Finished
  {
    var p := FollowPolicy(o);
    var items := r1.data.value;
    assert DecodablePrefix(PlainShape, items) == |items|;
    assert items[..|items|] == items;
    var s1 := Step(p, st, r1);
    var st' := st.(params := st.params["pagination_token" := PaginationProperties.Token(r1)], previous := Some(items));
    assert s1 == StepResult(Records(PlainShape, items, r1.includes), [], Again(st'));
    assert [r1, r2][1..] == [r2];
    assert Step(p, st', r2) == StepResult(Records(PlainShape, items, r2.includes), [], Stop(Finished));
  }

  /**
   * On the first page there is no earlier `users`: a validation failure raises
   * (`UnboundLocalError` without the flag, the validation error with it).
   */
  lemma InvalidFirstPageRaises(o: Options, r: Response, rest: seq<Response>)
    requires r.status == 200 && RateLimit.HeadersReadable(r.headers) && !r.valid
    ensures var p := FollowPolicy(o);
      Run(p, Start(p, FollowParams(o)), [r] + rest)
        == Trace([], [FollowParams(o)], [], Raised(if o.raiseOnInvalid then InvalidPayload else UnboundResult))
  {
  }

  /** An ok page that validates but has no users raises. */
  lemma EmptyPageRaises(o: Options, st: EngineState, r: Response, rest: seq<Response>)
    requires IsOk(r.status) && RateLimit.HeadersReadable(r.headers) && r.valid && IsEmpty(r.data)
    ensures Run(FollowPolicy(o), st, [r] + rest) == Trace([], [st.params], [], Raised(EmptyData))
  {
  }
}
