/**
 * `get_tweet_compliance_stream` and `get_user_compliance_stream`: one of the four
 * partitions of compliance events, as a stream. The two functions differ only in
 * their URL and in the event type a line is decoded into.
 */
module ComplianceStream {
  import opened Wrappers
  import opened Http
  import opened Streaming
  import Text

  /** `backfill_minutes` is sent only when it is truthy: `None` and 0 are both left out. */
  predicate BackfillSent(backfillMinutes: Option<int>) {
    backfillMinutes.Some? && backfillMinutes.value != 0
  }

  /** The stream's parameters: the partition as a string, the backfill when truthy, and the optional window. */
  function ComplianceParams(partition: int, backfillMinutes: Option<int>,
                            startTime: Option<Timestamp>, endTime: Option<Timestamp>): (params: Params)
    ensures "partition" in params && Text.ParseInt(params["partition"]) == Some(partition)
    ensures ("backfill_minutes" in params) == BackfillSent(backfillMinutes)
    ensures BackfillSent(backfillMinutes) ==> Text.ParseInt(params["backfill_minutes"]) == Some(backfillMinutes.value)
    ensures ("start_time" in params) == startTime.Some? && ("end_time" in params) == endTime.Some?
    ensures startTime.Some? ==> params["start_time"] == startTime.value
    ensures endTime.Some? ==> params["end_time"] == endTime.value
  {
    Text.DecimalRoundTrip(partition);
    var base := map["partition" := Text.DecimalString(partition)];
    var withBackfill :=
      if BackfillSent(backfillMinutes) then
        Text.DecimalRoundTrip(backfillMinutes.value);
        base["backfill_minutes" := Text.DecimalString(backfillMinutes.value)]
      else base;
    AddTime(AddTime(withBackfill, "start_time", startTime), "end_time", endTime)
  }

  /** `get_tweet_compliance_stream` against the scripted connections `cs`. */
  method GetTweetComplianceStream(partition: int, backfillMinutes: Option<int>,
                                  startTime: Option<Timestamp>, endTime: Option<Timestamp>,
                                  cs: seq<Connection>) returns (t: Trace)
    ensures t == StreamRun(ComplianceEvents, ComplianceParams(partition, backfillMinutes, startTime, endTime), cs)
  {
    t := RunStream(ComplianceEvents, ComplianceParams(partition, backfillMinutes, startTime, endTime), cs);
  }

  /** `get_user_compliance_stream`: the same loop against the user compliance URL. */
  method GetUserComplianceStream(partition: int, backfillMinutes: Option<int>,
                                 startTime: Option<Timestamp>, endTime: Option<Timestamp>,
                                 cs: seq<Connection>) returns (t: Trace)
    ensures t == StreamRun(ComplianceEvents, ComplianceParams(partition, backfillMinutes, startTime, endTime), cs)
  {
    t := RunStream(ComplianceEvents, ComplianceParams(partition, backfillMinutes, startTime, endTime), cs);
  }

  /**
   * A reconnect does not adjust the backfill: every connection carries exactly the
   * parameters of the first one, and a stream only ends by raising on a failed open.
   */
  lemma ReconnectRepeatsParams(partition: int, backfillMinutes: Option<int>,
                               startTime: Option<Timestamp>, endTime: Option<Timestamp>, cs: seq<Connection>)
    ensures var params := ComplianceParams(partition, backfillMinutes, startTime, endTime);
      var t := StreamRun(ComplianceEvents, params, cs);
      && (forall q :: q in t.requests ==> q == params && ("backfill_minutes" in q <==> BackfillSent(backfillMinutes)))
      && t.outcome != Finished
  {
    Streaming.NeverFinishes(ComplianceEvents, ComplianceParams(partition, backfillMinutes, startTime, endTime), cs);
  }

  /**
   * Two events, a close, then one event on the reconnect: the caller sees all three
   * in arrival order, and both connections are opened with the same parameters.
   */
  lemma EventsSurviveReconnect(params: Params, a: string, b: string, c: string)
    ensures var first := Connection(200, [Payload(a, true, None, None, true), KeepAlive, Payload(b, true, None, None, true), Eof]);
      var second := Connection(200, [Payload(c, true, None, None, true)]);
      StreamRun(ComplianceEvents, params, [first, second]) == Trace([Event(a), Event(b), Event(c)], [params, params], [], InputExhausted)
  {
    var pa, pb, pc := Payload(a, true, None, None, true), Payload(b, true, None, None, true), Payload(c, true, None, None, true);
    var first, second := Connection(200, [pa, KeepAlive, pb, Eof]), Connection(200, [pc]);
    FirstEofAt(first.lines, 3);
    FirstEofAt(second.lines, 1);
    assert first.lines[1..] == [KeepAlive, pb, Eof] && [KeepAlive, pb, Eof][1..] == [pb, Eof] && [pb, Eof][1..] == [Eof];
    assert ReadLines(ComplianceEvents, [pb, Eof]) == [Event(b)];
    assert ReadLines(ComplianceEvents, first.lines) == [Event(a), Event(b)];
    assert second.lines[1..] == [];
    assert ReadLines(ComplianceEvents, second.lines) == [Event(c)];
    assert StreamRun(ComplianceEvents, params, [second]) == Trace([Event(c)], [params], [], InputExhausted);
    assert [first, second][1..] == [second];
  }
}
