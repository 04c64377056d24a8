/**
 * What the client exchanges with the server, once the network is replaced by a
 * scripted list of responses: responses, the records handed to the caller, and the
 * trace of one endpoint call.
 */
module Http {
  import opened Wrappers
  import RateLimit

  /** The query parameters of one GET request. */
  type Params = map<string, string>

  /**
   * One element of a response's `data` array. `decodesAsUser` says whether validating
   * it as a `User` succeeds; the validator itself is not part of this model.
   */
  datatype Item = Item(body: string, decodesAsUser: bool)

  /** The response's `meta` object; only its `next_token` matters here. */
  datatype Meta = Meta(nextToken: Option<string>)

  /**
   * One HTTP response as the endpoint loop sees it. `data`, `includes` and `meta` are
   * the top-level keys of the JSON body (`None` when absent); `valid` says whether the
   * body validates against the endpoint's response schema; `hasErrors` whether it
   * carries an `errors` key; `clock` is `int(time.time())` while it is handled.
   */
  datatype Response = Response(
    status: int,
    headers: RateLimit.Headers,
    data: Option<seq<Item>>,
    includes: Option<string>,
    meta: Option<Meta>,
    valid: bool,
    hasErrors: bool,
    clock: int)

  const EmptyObject := "{}"
  const EmptyItem := Item(EmptyObject, false)

  /**
   * What a generator yields: a `TweetResponse` (a tweet with its page's `includes`),
   * a decoded entity (user, count bucket, rule, trend), or a compliance event.
   */
  datatype Record = Tweet(tweet: Item, includes: string) | Entity(item: Item) | Event(body: string)

  /** Why an endpoint raised. */
  datatype Error =
    | HttpError(status: int)    // a status the endpoint treats as fatal
    | MalformedHeader           // int() failed on a rate-limit header
    | InvalidPayload            // schema validation raised
    | EmptyData                 // an ok page without `data`, where the endpoint requires it
    | MissingMeta               // `meta` looked up on a body that has none
    | UndecodableItem           // one item failed its own validation
    | UnboundResult             // the validated result was never bound
    | BadGranularity            // rejected before any request

  /**
   * How a call ended: the generator returned, raised, stopped on its retry budget
   * without raising, or was still running when the scripted input ran out.
   */
  datatype Outcome = Finished | Raised(error: Error) | GaveUp | InputExhausted

  /** Everything one endpoint call did: yielded records, request parameters, sleeps, outcome. */
  datatype Trace = Trace(records: seq<Record>, requests: seq<Params>, sleeps: seq<int>, outcome: Outcome)

  /** aiohttp's `response.ok`. */
  predicate IsOk(status: int) {
    status < 400
  }

  /** `t` preceded by records, requests and sleeps that happened before it. */
  function Prefixed(records: seq<Record>, requests: seq<Params>, sleeps: seq<int>, t: Trace): (r: Trace)
    ensures r.outcome == t.outcome
    ensures |r.requests| == |requests| + |t.requests|
  {
    Trace(records + t.records, requests + t.requests, sleeps + t.sleeps, t.outcome)
  }

  /** Prefixing twice is prefixing once with the concatenations. */
  lemma PrefixedTwice(r1: seq<Record>, q1: seq<Params>, s1: seq<int>, r2: seq<Record>, q2: seq<Params>, s2: seq<int>, t: Trace)
    ensures Prefixed(r1, q1, s1, Prefixed(r2, q2, s2, t)) == Prefixed(r1 + r2, q1 + q2, s1 + s2, t)
  {
    assert r1 + (r2 + t.records) == (r1 + r2) + t.records;
    assert q1 + (q2 + t.requests) == (q1 + q2) + t.requests;
    assert s1 + (s2 + t.sleeps) == (s1 + s2) + t.sleeps;
  }

  /** Python's truthiness of an optional string argument. */
  predicate Truthy(s: Option<string>) {
    s.Some? && s.value != ""
  }

  /** Python's truthiness of an optional list argument. */
  predicate TruthyList(xs: Option<seq<string>>) {
    xs.Some? && xs.value != []
  }

  /** `if value: params[key] = value`. */
  function AddIfTruthy(params: Params, key: string, value: Option<string>): (r: Params)
    ensures Truthy(value) ==> key in r && r[key] == value.value
    ensures !Truthy(value) ==> r == params
    ensures r - {key} == params - {key}
  {
    if Truthy(value) then params[key := value.value] else params
  }

  /** A `datetime` argument already rendered as `%Y-%m-%dT%H:%M:%SZ`. */
  type Timestamp = string

  /** `if t: params[key] = t.strftime(...)`; a datetime is always truthy. */
  function AddTime(params: Params, key: string, t: Option<Timestamp>): (r: Params)
    ensures t.Some? ==> key in r && r[key] == t.value
    ensures t.None? ==> r == params
    ensures r - {key} == params - {key}
  {
    if t.Some? then params[key := t.value] else params
  }

  /**
   * `params` carries exactly the window arguments that were given (the ids only when
   * truthy), each with its value.
   */
  predicate CarriesWindow(params: Params, startTime: Option<Timestamp>, endTime: Option<Timestamp>,
                          sinceId: Option<string>, untilId: Option<string>) {
    && ("start_time" in params <==> startTime.Some?) && (startTime.Some? ==> params["start_time"] == startTime.value)
    && ("end_time" in params <==> endTime.Some?) && (endTime.Some? ==> params["end_time"] == endTime.value)
    && ("since_id" in params <==> Truthy(sinceId)) && (Truthy(sinceId) ==> params["since_id"] == sinceId.value)
    && ("until_id" in params <==> Truthy(untilId)) && (Truthy(untilId) ==> params["until_id"] == untilId.value)
  }

  /** The optional time window and id bounds the search-like endpoints add, each only when given. */
  function AddWindow(params: Params, startTime: Option<Timestamp>, endTime: Option<Timestamp>,
                     sinceId: Option<string>, untilId: Option<string>): (r: Params)
    ensures forall k :: k in r <==>
      k in params || (k == "start_time" && startTime.Some?) || (k == "end_time" && endTime.Some?)
      || (k == "since_id" && Truthy(sinceId)) || (k == "until_id" && Truthy(untilId))
    ensures startTime.Some? ==> r["start_time"] == startTime.value
    ensures endTime.Some? ==> r["end_time"] == endTime.value
    ensures Truthy(sinceId) ==> r["since_id"] == sinceId.value
    ensures Truthy(untilId) ==> r["until_id"] == untilId.value
    ensures forall k :: k in params && k !in {"start_time", "end_time", "since_id", "until_id"} ==> r[k] == params[k]
  {
    AddIfTruthy(AddIfTruthy(AddTime(AddTime(params, "start_time", startTime), "end_time", endTime), "since_id", sinceId), "until_id", untilId)
  }

  /** The count endpoints accept only these granularities (`None` included in the rejection). */
  predicate KnownGranularity(g: Option<string>) {
    g == Some("minute") || g == Some("hour") || g == Some("day")
  }
}
