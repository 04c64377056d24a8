/**
 * The request / retry / pagination loop that every collection endpoint repeats with
 * small differences. A `Policy` records one endpoint's choices; `Step` and `Run`
 * state what the loop does, and `Execute` is the loop itself, proved to do exactly that.
 */
module Pagination {
  import opened Wrappers
  import opened Http
  import RateLimit

  /** What a 429 does: wait for the limiter's reset, sleep a fixed time, or nothing special. */
  datatype RateAction = WaitForReset | SleepFor(seconds: int) | NotSpecial

  /**
   * What any other non-ok status does: sleep and retry without bound; sleep and retry
   * while a counter that starts at `budget` allows it (optionally raising on 503); or raise.
   */
  datatype NotOkAction =
    | SleepAndRetry(seconds: int)
    | BoundedRetry(seconds: int, raiseOn503: bool, budget: int)
    | RaiseNotOk

  /**
   * How an ok body is validated: not at all (or only logged), raising on failure, or
   * (when failure is only logged) falling back to the previously bound result.
   */
  datatype Validation = NotValidated | RaiseOnInvalid | ReusePrevious(raiseOnInvalid: bool)

  /** What an ok page with empty or missing `data` does. */
  datatype EmptyData = YieldNothing | RaiseOnEmpty | StopOnEmpty

  /** What is yielded per item: a `TweetResponse`, the item itself, or the item validated as a `User`. */
  datatype Shape = TweetShape | PlainShape | UserDecodeShape

  /** Whether a missing `meta` raises (`meta[...]`, `in None`) or ends the loop (`.get("meta", {})`). */
  datatype MetaAccess = MetaRequired | MetaOptional

  /** Whether the loop continues when the `next_token` key is present, or only when it is non-empty. */
  datatype TokenTest = KeyPresent | NonEmptyToken

  /** Follow `meta.next_token` into request parameter `param`, or stop after one page. */
  datatype Paging = Cursor(param: string, access: MetaAccess, test: TokenTest) | SinglePage

  datatype Policy = Policy(
    fatalEarly: set<int>,     // statuses that raise before the limiter sees the headers
    on429: RateAction,
    onNotOk: NotOkAction,
    validation: Validation,
    onEmpty: EmptyData,
    shape: Shape,
    paging: Paging)

  /** The disposition of a status under a policy. */
  datatype Disposition = Fatal | RateLimited | Transient | Ok

  /**
   * The loop's own state: the request parameters, the retry counter, and the last
   * result bound by a successful validation (kept only for `ReusePrevious`).
   */
  datatype EngineState = EngineState(params: Params, tries: int, previous: Option<seq<Item>>)

  datatype Next = Again(state: EngineState) | Stop(outcome: Outcome)

  /** What handling one response did: records yielded, sleeps taken, and how to go on. */
  datatype StepResult = StepResult(emitted: seq<Record>, slept: seq<int>, next: Next)

  function Start(p: Policy, params: Params): EngineState {
    EngineState(params, if p.onNotOk.BoundedRetry? then p.onNotOk.budget else 0, None)
  }

  /** The limiter is used exactly by the endpoints that wait for its reset on 429. */
  predicate UsesLimiter(p: Policy) {
    p.on429.WaitForReset?
  }

  /**
   * Classification of a status, in the order the loops test it: the early fatal
   * statuses, then 429, then `response.ok`, then the remaining non-ok statuses.
   */
  function Classify(p: Policy, status: int): (d: Disposition)
    ensures status in p.fatalEarly ==> d == Fatal
    ensures d == Ok ==> IsOk(status)
    ensures d == RateLimited <==> status !in p.fatalEarly && status == 429 && !p.on429.NotSpecial?
    ensures d == Transient <==>
      && status !in p.fatalEarly && !IsOk(status)
      && !(status == 429 && !p.on429.NotSpecial?)
      && !p.onNotOk.RaiseNotOk?
      && !(p.onNotOk.BoundedRetry? && p.onNotOk.raiseOn503 && status == 503)
    ensures status !in p.fatalEarly && IsOk(status) ==> d == Ok
  {
    if status in p.fatalEarly then Fatal
    else if status == 429 && !p.on429.NotSpecial? then RateLimited
    else if IsOk(status) then Ok
    else if p.onNotOk.RaiseNotOk? || (p.onNotOk.BoundedRetry? && p.onNotOk.raiseOn503 && status == 503) then Fatal
    else Transient
  }

  predicate Decodes(shape: Shape, item: Item) {
    shape != UserDecodeShape || item.decodesAsUser
  }

  function ToRecord(shape: Shape, item: Item, includes: Option<string>): Record {
    if shape == TweetShape then Tweet(item, includes.GetOr(EmptyObject)) else Entity(item)
  }

  /** One record per item, in server order. */
  function Records(shape: Shape, items: seq<Item>, includes: Option<string>): (rs: seq<Record>)
    ensures |rs| == |items|
    ensures forall k :: 0 <= k < |items| ==> rs[k] == ToRecord(shape, items[k], includes)
  {
    seq(|items|, k requires 0 <= k < |items| => ToRecord(shape, items[k], includes))
  }

  /** The length of the longest prefix of `items` whose every element decodes. */
  function DecodablePrefix(shape: Shape, items: seq<Item>): (k: nat)
    ensures k <= |items|
    ensures forall j :: 0 <= j < k ==> Decodes(shape, items[j])
    ensures k < |items| ==> !Decodes(shape, items[k])
  {
    if items == [] || !Decodes(shape, items[0]) then 0
    else 1 + DecodablePrefix(shape, items[1..])
  }

  /** The `data` the loop goes on with after validation, or the error validation raises. */
  function Validated(p: Policy, st: EngineState, r: Response): Result<Option<seq<Item>>, Error> {
    match p.validation
    case NotValidated => Success(r.data)
    case RaiseOnInvalid => if r.valid then Success(r.data) else Failure(InvalidPayload)
    case ReusePrevious(raiseOnInvalid) =>
      if r.valid then Success(r.data)
      else if raiseOnInvalid then Failure(InvalidPayload)
      else if st.previous.Some? then Success(Some(st.previous.value))
      else Failure(UnboundResult)
  }

  predicate IsEmpty(data: Option<seq<Item>>) {
    data.None? || data.value == []
  }

  /** After a page: copy `meta.next_token` into the cursor parameter, or stop. */
  function Advance(paging: Paging, st: EngineState, items: seq<Item>, meta: Option<Meta>): Next {
    match paging
    case SinglePage => Stop(Finished)
    case Cursor(param, access, test) =>
      if meta.None? then
        (if access == MetaRequired then Stop(Raised(MissingMeta)) else Stop(Finished))
      else if meta.value.nextToken.None? then Stop(Finished)
      else if test == NonEmptyToken && meta.value.nextToken.value == "" then Stop(Finished)
      else Again(st.(params := st.params[param := meta.value.nextToken.value], previous := Some(items)))
  }

  /** Handling of an ok response: validate, check for empty data, yield, advance. */
  function SuccessStep(p: Policy, st: EngineState, r: Response): StepResult {
    match Validated(p, st, r)
    case Failure(e) => StepResult([], [], Stop(Raised(e)))
    case Success(data) =>
      if IsEmpty(data) && p.onEmpty == RaiseOnEmpty then StepResult([], [], Stop(Raised(EmptyData)))
      else if IsEmpty(data) && p.onEmpty == StopOnEmpty then StepResult([], [], Stop(Finished))
      else
        var items := data.GetOr([]);
        var k := DecodablePrefix(p.shape, items);
        var emitted := Records(p.shape, items[..k], r.includes);
        if k < |items| then StepResult(emitted, [], Stop(Raised(UndecodableItem)))
        else StepResult(emitted, [], Advance(p.paging, st, items, r.meta))
  }

  /** Handling of a retryable non-ok response. */
  function TransientStep(a: NotOkAction, st: EngineState, status: int): StepResult {
    match a
    case SleepAndRetry(n) => StepResult([], [n], Again(st))
    case RaiseNotOk => StepResult([], [], Stop(Raised(HttpError(status))))
    case BoundedRetry(n, _, _) =>
      var left := if st.tries > 0 then st.tries - 1 else st.tries;
      if left != 0 then StepResult([], [n], Again(st.(tries := left)))
      else StepResult([], [], Stop(GaveUp))
  }

  /** The seconds slept on a 429 before the same request is sent again. */
  function Backoff(a: RateAction, r: Response): int
    requires !a.NotSpecial?
    requires a.WaitForReset? ==> RateLimit.HeadersReadable(r.headers)
  {
    if a.WaitForReset? then RateLimit.WaitSeconds(RateLimit.ResetFrom(r.headers), r.clock)
    else a.seconds
  }

  /** One pass through the loop body for response `r`. */
  function Step(p: Policy, st: EngineState, r: Response): StepResult {
    if r.status in p.fatalEarly then StepResult([], [], Stop(Raised(HttpError(r.status))))
    else if UsesLimiter(p) && !RateLimit.HeadersReadable(r.headers) then StepResult([], [], Stop(Raised(MalformedHeader)))
    else
      match Classify(p, r.status)
      case Fatal => StepResult([], [], Stop(Raised(HttpError(r.status))))
      case RateLimited => StepResult([], [Backoff(p.on429, r)], Again(st))
      case Transient => TransientStep(p.onNotOk, st, r.status)
      case Ok => SuccessStep(p, st, r)
  }

  /**
   * The whole call against the scripted responses `rs`: one request per response
   * consumed, until the loop stops or the script runs out.
   */
  function Run(p: Policy, st: EngineState, rs: seq<Response>): (t: Trace)
    ensures |t.requests| <= |rs|
    decreases |rs|
  {
    if rs == [] then Trace([], [], [], InputExhausted)
    else
      var s := Step(p, st, rs[0]);
      match s.next
      case Stop(o) => Trace(s.emitted, [st.params], s.slept, o)
      case Again(st') => Prefixed(s.emitted, [st.params], s.slept, Run(p, st', rs[1..]))
  }

  /** `Run` on a non-empty script: the first step, then the rest if the loop goes on. */
  lemma RunCons(p: Policy, st: EngineState, rs: seq<Response>)
    requires rs != []
    ensures var s := Step(p, st, rs[0]);
      Run(p, st, rs) == if s.next.Stop? then Trace(s.emitted, [st.params], s.slept, s.next.outcome)
                        else Prefixed(s.emitted, [st.params], s.slept, Run(p, s.next.state, rs[1..]))
  {
  }

  /** The loop body after the status checks: validation, the empty-data check, the yields, the cursor. */
  method HandleSuccess(p: Policy, st: EngineState, r: Response) returns (res: StepResult)
    ensures res == SuccessStep(p, st, r)
  {
    var data: Option<seq<Item>>;
    if p.validation.NotValidated? || r.valid {
      data := r.data;
    } else if p.validation.RaiseOnInvalid? || p.validation.raiseOnInvalid {
      return StepResult([], [], Stop(Raised(InvalidPayload)));
    } else if st.previous.Some? {
      data := Some(st.previous.value);
    } else {
      return StepResult([], [], Stop(Raised(UnboundResult)));
    }
    var empty := data.None? || data.value == [];
    if empty && p.onEmpty == RaiseOnEmpty {
      return StepResult([], [], Stop(Raised(EmptyData)));
    }
    if empty && p.onEmpty == StopOnEmpty {
      return StepResult([], [], Stop(Finished));
    }
    var items := if data.Some? then data.value else [];
    var emitted: seq<Record> := [];
    var i := 0;
    while i < |items| && Decodes(p.shape, items[i])
      invariant 0 <= i <= |items|
      invariant forall j :: 0 <= j < i ==> Decodes(p.shape, items[j])
      invariant emitted == Records(p.shape, items[..i], r.includes)
    {
      emitted := emitted + [ToRecord(p.shape, items[i], r.includes)];
      i := i + 1;
    }
    assert i == DecodablePrefix(p.shape, items);
    if i < |items| {
      return StepResult(emitted, [], Stop(Raised(UndecodableItem)));
    }
    res := StepResult(emitted, [], Advance(p.paging, st, items, r.meta));
  }

  /** The loop body for one response, driving the endpoint's rate limiter. */
  method HandleResponse(p: Policy, st: EngineState, r: Response, limiter: RateLimit.RateLimiter)
    returns (res: StepResult)
    modifies limiter
    ensures res == Step(p, st, r)
    ensures limiter.State()
         == if r.status in p.fatalEarly || !UsesLimiter(p) then old(limiter.State())
            else RateLimit.Updated(old(limiter.State()), r.headers)
  {
    if r.status in p.fatalEarly {
      return StepResult([], [], Stop(Raised(HttpError(r.status))));
    }
    if UsesLimiter(p) {
      var ok := limiter.UpdateLimits(r.headers);
      if !ok {
        return StepResult([], [], Stop(Raised(MalformedHeader)));
      }
    }
    if r.status == 429 && !p.on429.NotSpecial? {
      if p.on429.WaitForReset? {
        var wait := limiter.WaitForLimitReset(r.clock);
        res := StepResult([], if wait.Some? then [wait.value] else [], Again(st));
      } else {
        res := StepResult([], [p.on429.seconds], Again(st));
      }
      return;
    }
    if !IsOk(r.status) {
      if p.onNotOk.RaiseNotOk? || (p.onNotOk.BoundedRetry? && p.onNotOk.raiseOn503 && r.status == 503) {
        return StepResult([], [], Stop(Raised(HttpError(r.status))));
      }
      if p.onNotOk.SleepAndRetry? {
        return StepResult([], [p.onNotOk.seconds], Again(st));
      }
      var tries := st.tries;
      if tries > 0 {
        tries := tries - 1;
      }
      if tries < 0 || tries > 0 {
        return StepResult([], [p.onNotOk.seconds], Again(st.(tries := tries)));
      }
      return StepResult([], [], Stop(GaveUp));
    }
    res := HandleSuccess(p, st, r);
  }

  /** One endpoint call: the `while True` loop, run against the scripted responses. */
  method Execute(p: Policy, params: Params, rs: seq<Response>) returns (t: Trace)
    ensures t == Run(p, Start(p, params), rs)
  {
    var limiter := new RateLimit.RateLimiter();
    var st := Start(p, params);
    var records: seq<Record>, requests: seq<Params>, sleeps: seq<int> := [], [], [];
    var i := 0;
    while i < |rs|
      invariant 0 <= i <= |rs|
      invariant Run(p, Start(p, params), rs) == Prefixed(records, requests, sleeps, Run(p, st, rs[i..]))
    {
      var res := HandleResponse(p, st, rs[i], limiter);
      RunCons(p, st, rs[i..]);
      assert rs[i..][0] == rs[i] && rs[i..][1..] == rs[i + 1..];
      ghost var whole := Run(p, Start(p, params), rs);
      assert whole == Prefixed(records, requests, sleeps, Run(p, st, rs[i..]));
      if res.next.Stop? {
        assert Run(p, st, rs[i..]) == Trace(res.emitted, [st.params], res.slept, res.next.outcome);
        return Trace(records + res.emitted, requests + [st.params], sleeps + res.slept, res.next.outcome);
      }
      ghost var later := Run(p, res.next.state, rs[i + 1..]);
      assert Run(p, st, rs[i..]) == Prefixed(res.emitted, [st.params], res.slept, later);
      PrefixedTwice(records, requests, sleeps, res.emitted, [st.params], res.slept, later);
      requests := requests + [st.params];
      records := records + res.emitted;
      sleeps := sleeps + res.slept;
      st := res.next.state;
      i := i + 1;
    }
    t := Trace(records, requests, sleeps, InputExhausted);
  }
}
