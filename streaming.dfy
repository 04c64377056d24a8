/**
 * The newline-delimited JSON stream readers: open a connection, raise if the status
 * is not ok, read lines until the server closes the connection, then reconnect with
 * the same parameters. Keep-alive lines are dropped; a line that fails to parse (or,
 * for compliance events, to decode) is logged and skipped.
 */
module Streaming {
  import opened Wrappers
  import opened Http

  /** One `readline()` result. */
  datatype Line =
    | Eof         // `b""`: the server closed the connection
    | KeepAlive   // `b"\r\n"`
    | Payload(raw: string, parses: bool, data: Option<Item>, includes: Option<string>, decodes: bool)

  /** One connection: the status it opened with and the lines read from it. */
  datatype Connection = Connection(status: int, lines: seq<Line>)

  /** The filtered tweet stream yields every parsed line; the compliance streams only decoded events. */
  datatype Kind = FilteredTweets | ComplianceEvents

  /** What one line yields. */
  function LineRecords(kind: Kind, line: Line): seq<Record> {
    match line
    case Payload(raw, parses, data, includes, decodes) =>
      if !parses then []
      else if kind == FilteredTweets then [Tweet(data.GetOr(EmptyItem), includes.GetOr(EmptyObject))]
      else if decodes then [Event(raw)]
      else []
    case _ => []
  }

  /**
   * Keep-alive lines yield nothing. A tweet line that parses yields exactly one tweet,
   * with `{}` for a missing `data` or `includes`, whether or not it validates; an
   * event line yields exactly one event when it both parses and decodes.
   */
  lemma OneRecordPerLine(kind: Kind, line: Line)
    ensures |LineRecords(kind, line)| <= 1
    ensures !line.Payload? ==> LineRecords(kind, line) == []
    ensures kind == FilteredTweets && line.Payload? ==>
      (line.parses <==> LineRecords(kind, line) == [Tweet(line.data.GetOr(EmptyItem), line.includes.GetOr(EmptyObject))])
    ensures kind == ComplianceEvents && line.Payload? ==>
      (line.parses && line.decodes <==> LineRecords(kind, line) == [Event(line.raw)])
  {
  }

  /** The index of the first `Eof`, or `|lines|` when the connection is still open. */
  function FirstEof(lines: seq<Line>): (k: nat)
    ensures k <= |lines|
    ensures k < |lines| ==> lines[k].Eof?
    ensures forall j :: 0 <= j < k ==> !lines[j].Eof?
  {
    if lines == [] || lines[0].Eof? then 0 else 1 + FirstEof(lines[1..])
  }

  /** The records of one connection, read front to back up to the first `Eof`. */
  function ReadLines(kind: Kind, lines: seq<Line>): seq<Record> {
    if lines == [] || lines[0].Eof? then [] else LineRecords(kind, lines[0]) + ReadLines(kind, lines[1..])
  }

  /** Reference definition: the records of a run of lines, collected from the back. */
  function Collected(kind: Kind, lines: seq<Line>): seq<Record> {
    if lines == [] then [] else Collected(kind, lines[..|lines| - 1]) + LineRecords(kind, lines[|lines| - 1])
  }

  lemma {:induction false} CollectedCons(kind: Kind, lines: seq<Line>)
    requires lines != []
    ensures Collected(kind, lines) == LineRecords(kind, lines[0]) + Collected(kind, lines[1..])
    decreases |lines|
  {
    if |lines| > 1 {
      var init := lines[..|lines| - 1];
      CollectedCons(kind, init);
      assert init[1..] == lines[1..][..|lines[1..]| - 1];
      assert lines[1..][|lines[1..]| - 1] == lines[|lines| - 1];
      assert init[0] == lines[0];
    } else {
      assert lines[1..] == [];
      assert lines[..0] == [];
    }
  }

  /** A connection yields exactly what the lines before its first `Eof` yield, in order. */
  lemma {:induction false} ReadLinesStopsAtEof(kind: Kind, lines: seq<Line>)
    ensures ReadLines(kind, lines) == Collected(kind, lines[..FirstEof(lines)])
    decreases |lines|
  {
    if lines == [] || lines[0].Eof? {
      assert lines[..FirstEof(lines)] == [];
    } else {
      var k := FirstEof(lines);
      ReadLinesStopsAtEof(kind, lines[1..]);
      assert lines[1..][..k - 1] == lines[..k][1..];
      CollectedCons(kind, lines[..k]);
    }
  }

  /** Lines read before the connection closes add up: reading splits at any point before the `Eof`. */
  lemma {:induction false} ReadLinesAppend(kind: Kind, a: seq<Line>, b: seq<Line>)
    requires forall j :: 0 <= j < |a| ==> !a[j].Eof?
    ensures ReadLines(kind, a + b) == ReadLines(kind, a) + ReadLines(kind, b)
    decreases |a|
  {
    if a == [] {
      assert a + b == b;
    } else {
      assert (a + b)[0] == a[0];
      assert (a + b)[1..] == a[1..] + b;
      ReadLinesAppend(kind, a[1..], b);
    }
  }

  /**
   * A keep-alive line, or a payload that fails to parse (or, for compliance events, to
   * decode), changes nothing about what a connection yields, wherever it arrives.
   */
  lemma {:induction false} SilentLineDropped(kind: Kind, a: seq<Line>, line: Line, b: seq<Line>)
    requires !line.Eof? && LineRecords(kind, line) == []
    ensures ReadLines(kind, a + [line] + b) == ReadLines(kind, a + b)
    decreases |a|
  {
    if a == [] {
      assert a + [line] + b == [line] + b && ([line] + b)[1..] == b;
      assert a + b == b;
    } else {
      assert (a + [line] + b)[0] == a[0] && (a + [line] + b)[1..] == a[1..] + [line] + b;
      assert (a + b)[0] == a[0] && (a + b)[1..] == a[1..] + b;
      if !a[0].Eof? {
        SilentLineDropped(kind, a[1..], line, b);
      }
    }
  }

  /**
   * The inner `while True`: read lines until `Eof`, handling each one. `closed` says
   * whether the server closed the connection before the lines ran out.
   */
  method ReadConnection(kind: Kind, lines: seq<Line>) returns (records: seq<Record>, closed: bool)
    ensures records == ReadLines(kind, lines)
    ensures closed <==> FirstEof(lines) < |lines|
  {
    records := [];
    var i := 0;
    while i < |lines| && !lines[i].Eof?
      invariant 0 <= i <= |lines|
      invariant forall j :: 0 <= j < i ==> !lines[j].Eof?
      invariant records + ReadLines(kind, lines[i..]) == ReadLines(kind, lines)
      decreases |lines| - i
    {
      var line := lines[i];
      ghost var before := records;
      if line.Payload? && line.parses {
        if kind == FilteredTweets {
          records := records + [Tweet(line.data.GetOr(EmptyItem), line.includes.GetOr(EmptyObject))];
        } else if line.decodes {
          records := records + [Event(line.raw)];
        }
      }
      ReadLinesStep(kind, lines, i, before, records);
      i := i + 1;
    }
    assert ReadLines(kind, lines[i..]) == [];
    FirstEofAt(lines, i);
    closed := i < |lines|;
  }

  /** Reading from a line that is not `Eof`: that line's records, then the rest. */
  lemma ReadLinesStep(kind: Kind, lines: seq<Line>, i: nat, before: seq<Record>, after: seq<Record>)
    requires i < |lines| && !lines[i].Eof?
    requires before + ReadLines(kind, lines[i..]) == ReadLines(kind, lines)
    requires after == before + LineRecords(kind, lines[i])
    ensures after + ReadLines(kind, lines[i + 1..]) == ReadLines(kind, lines)
  {
    assert lines[i..][0] == lines[i] && lines[i..][1..] == lines[i + 1..];
    assert ReadLines(kind, lines[i..]) == LineRecords(kind, lines[i]) + ReadLines(kind, lines[i + 1..]);
  }

  lemma {:induction false} FirstEofAt(lines: seq<Line>, i: nat)
    requires i <= |lines|
    requires forall j :: 0 <= j < i ==> !lines[j].Eof?
    requires i == |lines| || lines[i].Eof?
    ensures FirstEof(lines) == i
    decreases i
  {
    if i > 0 {
      FirstEofAt(lines[1..], i - 1);
    }
  }

  /**
   * The whole stream against the scripted connections `cs`: a non-ok open raises; a
   * closed connection is followed by a new one with the same parameters; a connection
   * that is still open when its lines run out ends the script.
   */
  function StreamRun(kind: Kind, params: Params, cs: seq<Connection>): (t: Trace)
    ensures |t.requests| <= |cs| && t.sleeps == []
    decreases |cs|
  {
    if cs == [] then Trace([], [], [], InputExhausted)
    else if !IsOk(cs[0].status) then Trace([], [params], [], Raised(HttpError(cs[0].status)))
    else if FirstEof(cs[0].lines) == |cs[0].lines| then Trace(ReadLines(kind, cs[0].lines), [params], [], InputExhausted)
    else Prefixed(ReadLines(kind, cs[0].lines), [params], [], StreamRun(kind, params, cs[1..]))
  }

  /** `StreamRun` from connection `i` on: that connection, then the rest if it was closed. */
  lemma StreamRunAt(kind: Kind, params: Params, cs: seq<Connection>, i: nat)
    requires i < |cs|
    ensures StreamRun(kind, params, cs[i..])
         == if !IsOk(cs[i].status) then Trace([], [params], [], Raised(HttpError(cs[i].status)))
            else if FirstEof(cs[i].lines) == |cs[i].lines| then Trace(ReadLines(kind, cs[i].lines), [params], [], InputExhausted)
            else Prefixed(ReadLines(kind, cs[i].lines), [params], [], StreamRun(kind, params, cs[i + 1..]))
  {
    assert cs[i..][0] == cs[i] && cs[i..][1..] == cs[i + 1..];
  }

  /** `n` requests with the same parameters. */
  function Copies(params: Params, n: nat): (qs: seq<Params>)
    ensures |qs| == n
    ensures forall q :: q in qs ==> q == params
  {
    if n == 0 then [] else [params] + Copies(params, n - 1)
  }

  lemma {:induction false} CopiesSnoc(params: Params, n: nat)
    ensures Copies(params, n) + [params] == Copies(params, n + 1)
    decreases n
  {
    if n > 0 {
      CopiesSnoc(params, n - 1);
      assert Copies(params, n) + [params] == [params] + (Copies(params, n - 1) + [params]);
    }
  }

  /** The outer `while True`: connect, read, reconnect. */
  method RunStream(kind: Kind, params: Params, cs: seq<Connection>) returns (t: Trace)
    ensures t == StreamRun(kind, params, cs)
  {
    var records: seq<Record>, requests: seq<Params> := [], [];
    var i := 0;
    while i < |cs|
      invariant 0 <= i <= |cs|
      invariant StreamRun(kind, params, cs) == Prefixed(records, requests, [], StreamRun(kind, params, cs[i..]))
    {
      StreamRunAt(kind, params, cs, i);
      if !IsOk(cs[i].status) {
        return Trace(records, requests + [params], [], Raised(HttpError(cs[i].status)));
      }
      var got, closed := ReadConnection(kind, cs[i].lines);
      if !closed {
        return Trace(records + got, requests + [params], [], InputExhausted);
      }
      PrefixedTwice(records, requests, [], got, [params], [], StreamRun(kind, params, cs[i + 1..]));
      records := records + got;
      requests := requests + [params];
      i := i + 1;
    }
    t := Trace(records, requests, [], InputExhausted);
  }

  /**
   * A stream never ends by itself: it raises on a failed open or is still running
   * when the script runs out. Every connection is opened with the same parameters.
   */
  lemma {:induction false} NeverFinishes(kind: Kind, params: Params, cs: seq<Connection>)
    ensures var t := StreamRun(kind, params, cs);
      && (t.outcome == InputExhausted || (t.outcome.Raised? && t.outcome.error.HttpError? && !IsOk(t.outcome.error.status)))
      && forall q :: q in t.requests ==> q == params
    decreases |cs|
  {
    if cs != [] && IsOk(cs[0].status) && FirstEof(cs[0].lines) < |cs[0].lines| {
      NeverFinishes(kind, params, cs[1..]);
    }
  }

  /** All records of connections, one after the other. */
  function AllRecords(kind: Kind, cs: seq<Connection>): seq<Record> {
    if cs == [] then [] else ReadLines(kind, cs[0].lines) + AllRecords(kind, cs[1..])
  }

  /** Every connection opened with an ok status and was closed by the server. */
  predicate CleanlyClosed(cs: seq<Connection>) {
    forall k :: 0 <= k < |cs| ==> IsOk(cs[k].status) && FirstEof(cs[k].lines) < |cs[k].lines|
  }

  /**
   * Across reconnects nothing is lost or repeated: after connections that each closed
   * cleanly, the caller has seen every connection's records in order, and one request
   * per connection, all with the same parameters.
   */
  lemma {:induction false} ReconnectsConcatenate(kind: Kind, params: Params, cs: seq<Connection>)
    requires CleanlyClosed(cs)
    ensures StreamRun(kind, params, cs) == Trace(AllRecords(kind, cs), Copies(params, |cs|), [], InputExhausted)
    decreases |cs|
  {
    if cs != [] {
      assert CleanlyClosed(cs[1..]) by {
        forall k | 0 <= k < |cs[1..]|
          ensures IsOk(cs[1..][k].status) && FirstEof(cs[1..][k].lines) < |cs[1..][k].lines|
        {
          assert cs[1..][k] == cs[k + 1];
        }
      }
      ReconnectsConcatenate(kind, params, cs[1..]);
      assert [params] + Copies(params, |cs| - 1) == Copies(params, |cs|);
    }
  }

  /**
   * After clean connections, the next open that fails raises with its status, having
   * yielded everything the earlier connections carried.
   */
  lemma OpenFailureRaises(kind: Kind, params: Params, cs: seq<Connection>, bad: Connection, rest: seq<Connection>)
    requires CleanlyClosed(cs) && !IsOk(bad.status)
    ensures StreamRun(kind, params, cs + [bad] + rest)
         == Trace(AllRecords(kind, cs), Copies(params, |cs| + 1), [], Raised(HttpError(bad.status)))
  {
    OpenFailureAfter(kind, params, cs, [bad] + rest);
    assert cs + [bad] + rest == cs + ([bad] + rest);
    CopiesSnoc(params, |cs|);
  }

  lemma {:induction false} OpenFailureAfter(kind: Kind, params: Params, cs: seq<Connection>, more: seq<Connection>)
    requires CleanlyClosed(cs)
    ensures StreamRun(kind, params, cs + more)
         == Prefixed(AllRecords(kind, cs), Copies(params, |cs|), [], StreamRun(kind, params, more))
    decreases |cs|
  {
    if cs == [] {
      assert cs + more == more;
    } else {
      assert (cs + more)[0] == cs[0];
      assert (cs + more)[1..] == cs[1..] + more;
      assert CleanlyClosed(cs[1..]) by {
        forall k | 0 <= k < |cs[1..]|
          ensures IsOk(cs[1..][k].status) && FirstEof(cs[1..][k].lines) < |cs[1..][k].lines|
        {
          assert cs[1..][k] == cs[k + 1];
        }
      }
      OpenFailureAfter(kind, params, cs[1..], more);
      PrefixedTwice([], [], [], ReadLines(kind, cs[0].lines), [params], [], StreamRun(kind, params, cs[1..] + more));
      PrefixedTwice(ReadLines(kind, cs[0].lines), [params], [], AllRecords(kind, cs[1..]), Copies(params, |cs| - 1), [], StreamRun(kind, params, more));
    }
  }
}
