/**
 * Properties of the shared loop that hold for every endpoint policy: how many
 * requests it sends, that retries resend the same request, that successful pages are
 * concatenated in order, that only the cursor parameter ever changes, and how the
 * bounded retry counter runs out.
 */
module PaginationProperties {
  import opened Wrappers
  import opened Http
  import opened Pagination
  import RateLimit

  /** One request per response consumed; the first carries the starting parameters. */
  lemma {:induction false} RequestsPerResponse(p: Policy, st: EngineState, rs: seq<Response>)
    ensures var t := Run(p, st, rs);
      && |t.requests| <= |rs|
      && (t.outcome == InputExhausted ==> |t.requests| == |rs|)
      && (t.outcome != InputExhausted ==> |t.requests| >= 1)
      && (|t.requests| > 0 ==> t.requests[0] == st.params)
    decreases |rs|
  {
    if rs != [] {
      var s := Step(p, st, rs[0]);
      if s.next.Again? {
        RequestsPerResponse(p, s.next.state, rs[1..]);
      }
    }
  }

  /**
   * A 429 or a retried transient error sleeps once and sends the very same request
   * again: the loop state keeps its parameters and nothing is yielded.
   */
  lemma RetryResendsSameRequest(p: Policy, st: EngineState, r: Response, rest: seq<Response>)
    requires Classify(p, r.status) == RateLimited || Classify(p, r.status) == Transient
    requires Step(p, st, r).next.Again?
    ensures var s := Step(p, st, r);
      && s.emitted == [] && |s.slept| == 1
      && s.next.state.params == st.params
      && s.next.state.previous == st.previous
      && Run(p, st, [r] + rest) == Prefixed([], [st.params], s.slept, Run(p, s.next.state, rest))
      && (rest != [] ==> Run(p, st, [r] + rest).requests[..2] == [st.params, st.params])
  {
    var s := Step(p, st, r);
    assert ([r] + rest)[1..] == rest;
    RequestsPerResponse(p, s.next.state, rest);
    if rest != [] {
      var t' := Run(p, s.next.state, rest);
      assert |t'.requests| >= 1 by {
        if t'.outcome == InputExhausted {
        }
      }
    }
  }

  /** An ok page that the loop accepts and continues from (when it carries a cursor). */
  predicate CleanPage(p: Policy, r: Response) {
    && r.status !in p.fatalEarly
    && IsOk(r.status)
    && (UsesLimiter(p) ==> RateLimit.HeadersReadable(r.headers))
    && r.valid
    && r.data.Some? && r.data.value != []
    && forall k :: 0 <= k < |r.data.value| ==> Decodes(p.shape, r.data.value[k])
  }

  predicate HasToken(r: Response) {
    r.meta.Some? && r.meta.value.nextToken.Some? && r.meta.value.nextToken.value != ""
  }

  function Token(r: Response): string
    requires HasToken(r)
  {
    r.meta.value.nextToken.value
  }

  /** A clean page yields all its items and follows its token, or ends the call when it has none. */
  lemma CleanPageStep(p: Policy, st: EngineState, r: Response)
    requires p.paging.Cursor? && CleanPage(p, r)
    requires HasToken(r) || r.meta == Some(Meta(None))
    ensures var s := Step(p, st, r);
      && s.emitted == Records(p.shape, r.data.value, r.includes)
      && s.slept == []
      && s.next == if HasToken(r) then Again(st.(params := st.params[p.paging.param := Token(r)], previous := Some(r.data.value)))
                   else Stop(Finished)
  {
    var items := r.data.value;
    assert DecodablePrefix(p.shape, items) == |items|;
    assert items[..|items|] == items;
    assert Validated(p, st, r) == Success(r.data);
  }

  /** The records of the pages `rs`, page after page, each in server order. */
  function AllRecords(p: Policy, rs: seq<Response>): seq<Record> {
    if rs == [] then [] else Records(p.shape, rs[0].data.GetOr([]), rs[0].includes) + AllRecords(p, rs[1..])
  }

  /**
   * Pagination: a script of clean pages linked by tokens, the last without one, is
   * consumed completely. The caller sees exactly the pages' records in order, one
   * request per page, the first with the starting parameters and each later one with
   * the previous page's token as cursor.
   */
  lemma {:induction false} PagesConcatenate(p: Policy, st: EngineState, rs: seq<Response>)
    requires p.paging.Cursor?
    requires |rs| >= 1
    requires forall k :: 0 <= k < |rs| ==> CleanPage(p, rs[k])
    requires forall k :: 0 <= k < |rs| - 1 ==> HasToken(rs[k])
    requires rs[|rs| - 1].meta == Some(Meta(None))
    ensures var t := Run(p, st, rs);
      && t.records == AllRecords(p, rs)
      && t.sleeps == []
      && t.outcome == Finished
      && |t.requests| == |rs|
      && t.requests[0] == st.params
      && forall k :: 1 <= k < |rs| ==> t.requests[k] == st.params[p.paging.param := Token(rs[k - 1])]
    decreases |rs|
  {
    var r := rs[0];
    var items := r.data.value;
    var s := Step(p, st, r);
    CleanPageStep(p, st, r);
    if |rs| == 1 {
      assert s.next == Stop(Finished);
    } else {
      var name := p.paging.param;
      var st' := st.(params := st.params[name := Token(r)], previous := Some(items));
      var rest := rs[1..];
      PagesConcatenate(p, st', rest);
      var t' := Run(p, st', rest);
      var t := Run(p, st, rs);
      assert t == Prefixed(s.emitted, [st.params], [], t');
      forall k | 1 <= k < |rs|
        ensures t.requests[k] == st.params[name := Token(rs[k - 1])]
      {
        if k > 1 {
          assert rest[k - 2] == rs[k - 1];
          assert t.requests[k] == t'.requests[k - 1] == st'.params[name := Token(rest[k - 2])];
          assert st.params[name := Token(r)][name := Token(rs[k - 1])] == st.params[name := Token(rs[k - 1])];
        }
      }
    }
  }

  /** The parameters every request of a call carries, relative to the starting ones. */
  predicate SameRequest(p: Policy, start: Params, sent: Params) {
    match p.paging
    case SinglePage => sent == start
    case Cursor(param, _, _) => sent - {param} == start - {param}
  }

  /** Nothing but the cursor parameter ever changes between requests (and nothing at all without paging). */
  lemma {:induction false} OnlyCursorChanges(p: Policy, st: EngineState, rs: seq<Response>)
    ensures forall q :: q in Run(p, st, rs).requests ==> SameRequest(p, st.params, q)
    decreases |rs|
  {
    if rs != [] {
      var s := Step(p, st, rs[0]);
      if s.next.Again? {
        var st' := s.next.state;
        OnlyCursorChanges(p, st', rs[1..]);
        assert SameRequest(p, st.params, st'.params);
        var t' := Run(p, st', rs[1..]);
        assert Run(p, st, rs).requests == [st.params] + t'.requests;
        forall q | q in t'.requests
          ensures SameRequest(p, st.params, q)
        {
          assert SameRequest(p, st'.params, q);
          if p.paging.Cursor? {
            var param := p.paging.param;
            assert q - {param} == st.params - {param};
          }
        }
      }
    }
  }

  /**
   * Two scripts that differ only in whether bodies validate and carry `errors` are
   * handled identically by an endpoint that does not act on validation.
   */
  lemma {:induction false} IgnoresValidityAndErrors(p: Policy, st: EngineState, rs1: seq<Response>, rs2: seq<Response>)
    requires p.validation == NotValidated
    requires |rs1| == |rs2|
    requires forall k :: 0 <= k < |rs1| ==> rs1[k].(valid := rs2[k].valid, hasErrors := rs2[k].hasErrors) == rs2[k]
    ensures Run(p, st, rs1) == Run(p, st, rs2)
    decreases |rs1|
  {
    if rs1 != [] {
      assert Step(p, st, rs1[0]) == Step(p, st, rs2[0]);
      var s := Step(p, st, rs1[0]);
      if s.next.Again? {
        IgnoresValidityAndErrors(p, s.next.state, rs1[1..], rs2[1..]);
      }
    }
  }

  /** A non-ok response that uses up one unit of a bounded retry counter. */
  predicate CountsAgainstBudget(p: Policy, r: Response) {
    Classify(p, r.status) == Transient && (UsesLimiter(p) ==> RateLimit.HeadersReadable(r.headers))
  }

  function Transients(p: Policy, rs: seq<Response>): nat {
    if rs == [] then 0 else (if CountsAgainstBudget(p, rs[0]) then 1 else 0) + Transients(p, rs[1..])
  }

  /**
   * With a counter of `c > 0`, the loop gives up exactly when it has met `c` retryable
   * errors over the whole call (successful pages do not reset it); before that each
   * one is retried.
   */
  lemma {:induction false} GivesUpWhenBudgetSpent(p: Policy, st: EngineState, rs: seq<Response>)
    requires p.onNotOk.BoundedRetry?
    requires st.tries > 0
    ensures var t := Run(p, st, rs);
      var n := Transients(p, rs[..|t.requests|]);
      n <= st.tries && (t.outcome == GaveUp <==> n == st.tries)
    decreases |rs|
  {
    RequestsPerResponse(p, st, rs);
    if rs != [] {
      var t := Run(p, st, rs);
      var s := Step(p, st, rs[0]);
      var c := if CountsAgainstBudget(p, rs[0]) then 1 else 0;
      if s.next.Stop? {
        assert rs[..|t.requests|] == [rs[0]];
        assert Transients(p, [rs[0]]) == c;
      } else {
        var st' := s.next.state;
        var t' := Run(p, st', rs[1..]);
        assert st'.tries == st.tries - c;
        RequestsPerResponse(p, st', rs[1..]);
        assert rs[..|t.requests|] == [rs[0]] + rs[1..][..|t'.requests|];
        assert rs[..|t.requests|][1..] == rs[1..][..|t'.requests|];
        if st'.tries > 0 {
          GivesUpWhenBudgetSpent(p, st', rs[1..]);
        }
      }
    }
  }

  /** A negative counter never reaches zero: retryable errors are retried without bound. */
  lemma {:induction false} NegativeBudgetNeverGivesUp(p: Policy, st: EngineState, rs: seq<Response>)
    requires p.onNotOk.BoundedRetry?
    requires st.tries < 0
    ensures Run(p, st, rs).outcome != GaveUp
    decreases |rs|
  {
    if rs != [] {
      var s := Step(p, st, rs[0]);
      if s.next.Again? {
        assert s.next.state.tries == st.tries;
        NegativeBudgetNeverGivesUp(p, s.next.state, rs[1..]);
      }
    }
  }

  /** A counter at zero gives up on the first retryable error, without sleeping. */
  lemma ZeroBudgetGivesUpAtOnce(p: Policy, st: EngineState, r: Response, rest: seq<Response>)
    requires p.onNotOk.BoundedRetry?
    requires st.tries == 0
    requires CountsAgainstBudget(p, r)
    ensures Run(p, st, [r] + rest) == Trace([], [st.params], [], GaveUp)
  {
  }

  /** Without paging, every request but the last was answered by a retried status: at most one page is ever accepted. */
  lemma {:induction false} SinglePageStopsAtFirstOk(p: Policy, st: EngineState, rs: seq<Response>)
    requires p.paging.SinglePage?
    ensures var t := Run(p, st, rs);
      forall k :: 0 <= k < |t.requests| - 1 ==> Classify(p, rs[k].status) != Ok
    decreases |rs|
  {
    if rs != [] {
      var s := Step(p, st, rs[0]);
      if s.next.Again? {
        SinglePageStopsAtFirstOk(p, s.next.state, rs[1..]);
        var t := Run(p, st, rs);
        var t' := Run(p, s.next.state, rs[1..]);
        forall k | 0 <= k < |t.requests| - 1
          ensures Classify(p, rs[k].status) != Ok
        {
          if k > 0 {
            assert rs[k] == rs[1..][k - 1];
          }
        }
      }
    }
  }

  /**
   * Without paging (and with items that always decode), records are yielded only by
   * the last response, and only when the call ends normally: everything or nothing.
   */
  lemma {:induction false} SinglePageAllOrNothing(p: Policy, st: EngineState, rs: seq<Response>)
    requires p.paging.SinglePage? && p.shape != UserDecodeShape && !p.validation.ReusePrevious?
    ensures var t := Run(p, st, rs);
      && (t.outcome != Finished ==> t.records == [])
      && (t.outcome == Finished ==>
            |t.requests| >= 1
            && IsOk(rs[|t.requests| - 1].status)
            && t.records == Records(p.shape, rs[|t.requests| - 1].data.GetOr([]), rs[|t.requests| - 1].includes))
    decreases |rs|
  {
    if rs != [] {
      var r := rs[0];
      var s := Step(p, st, r);
      var items := r.data.GetOr([]);
      assert DecodablePrefix(p.shape, items) == |items|;
      assert items[..|items|] == items;
      if s.next.Again? {
        SinglePageAllOrNothing(p, s.next.state, rs[1..]);
        var t' := Run(p, s.next.state, rs[1..]);
        assert Run(p, st, rs) == Prefixed([], [st.params], s.slept, t');
        if t'.outcome == Finished {
          assert rs[1..][|t'.requests| - 1] == rs[|t'.requests|];
        }
      }
    }
  }
}
