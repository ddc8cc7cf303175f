/**
 * The lichess client's stream readers and its retrying `post`.
 *
 * A streaming request is a `Session`: either no response at all (a network error), or a
 * response with a status code, the lines received before the connection ended, and whether
 * it ended cleanly.  JSON parsing is an uninterpreted partial function `parse`; the HTTP
 * client, the sleeps between reconnects and the backoff schedules are not modelled.
 */
module Lichess {
  import opened Wrappers
  import opened Events

  // ---------------------------------------------------------------- line decoding

  /** The characters Python's `str.strip()` removes (those for which `str.isspace()` holds). */
  predicate IsWhitespace(c: char) {
    || '\t' <= c <= '\r'
    || '\U{1c}' <= c <= ' '
    || c == '\U{85}' || c == '\U{a0}' || c == '\U{1680}'
    || '\U{2000}' <= c <= '\U{200a}'
    || c == '\U{2028}' || c == '\U{2029}' || c == '\U{202f}' || c == '\U{205f}' || c == '\U{3000}'
  }

  /** `line.strip()` is empty. */
  predicate IsBlank(line: string) {
    forall i :: 0 <= i < |line| ==> IsWhitespace(line[i])
  }

  /**
   * `json.loads(text)`: uninterpreted, except that a document holding only whitespace is
   * never valid JSON, so it always fails (raises) on a blank line.
   */
  function JsonLoads<T>(parse: string -> Option<T>, text: string): (r: Option<T>)
    ensures IsBlank(text) ==> r == None
    ensures !IsBlank(text) ==> r == parse(text)
  {
    if IsBlank(text) then None else parse(text)
  }

  /** The per-line rule of `event_stream` and `game_stream`: blank means ping, anything else is parsed. */
  function StreamLine(parse: string -> Option<Event>, line: string): (r: Option<Event>)
    ensures IsBlank(line) ==> r == Some(Ping)
    ensures !IsBlank(line) ==> r == parse(line)
  {
    if !IsBlank(line) then JsonLoads(parse, line) else Some(Ping)
  }

  /** The line decoder of `event_stream` and `game_stream`. */
  function StreamDecoder(parse: string -> Option<Event>): string -> Option<Event> {
    l => StreamLine(parse, l)
  }

  /** The items a generator yields from one session, and whether it got to the end without raising. */
  datatype Read<T> = Read(items: seq<T>, clean: bool)

  /**
   * Decode `lines` in order, yielding one item per line, until the first line that fails
   * to decode (the exception ends the session there).
   */
  function DecodeUntilError<T>(decode: string -> Option<T>, lines: seq<string>): (r: Read<T>)
    ensures |r.items| <= |lines|
    ensures forall i :: 0 <= i < |r.items| ==> decode(lines[i]) == Some(r.items[i])
    ensures r.clean <==> |r.items| == |lines|
    ensures !r.clean ==> decode(lines[|r.items|]) == None
  {
    if lines == [] then Read([], true)
    else match decode(lines[0])
      case None => Read([], false)
      case Some(x) =>
        var rest := DecodeUntilError(decode, lines[1..]);
        Read([x] + rest.items, rest.clean)
  }

  // ---------------------------------------------------------------- sessions

  /** One streaming request. */
  datatype Session =
    | NoResponse                                                  // the request raised (httpx.RequestError)
    | Responded(status: int, lines: seq<string>, endedCleanly: bool)

  /** `response.raise_for_status()` returns normally exactly for a 2xx status. */
  predicate IsSuccess(status: int) {
    200 <= status <= 299
  }

  /**
   * What one session yields: nothing when the request fails or its status is not 2xx;
   * otherwise the decoded lines up to the first that fails.  The session is clean when
   * every received line decoded and the connection ended without error.
   */
  function SessionRead<T>(decode: string -> Option<T>, s: Session): (r: Read<T>)
    ensures s.NoResponse? || !IsSuccess(s.status) ==> r == Read([], false)
    ensures s.Responded? && IsSuccess(s.status) ==>
      r.items == DecodeUntilError(decode, s.lines).items &&
      (r.clean <==> |r.items| == |s.lines| && s.endedCleanly)
  {
    match s
    case NoResponse => Read([], false)
    case Responded(status, lines, endedCleanly) =>
      if !IsSuccess(status) then Read([], false)
      else
        var r := DecodeUntilError(decode, lines);
        Read(r.items, r.clean && endedCleanly)
  }

  /** Reads one session line by line, yielding each decoded item as it arrives. */
  method ReadSession<T>(decode: string -> Option<T>, s: Session) returns (items: seq<T>, clean: bool)
    ensures Read(items, clean) == SessionRead(decode, s)
  {
    if s.NoResponse? || !IsSuccess(s.status) {
      return [], false;
    }
    var lines := s.lines;
    items := [];
    var i := 0;
    while i < |lines|
      invariant 0 <= i <= |lines| && |items| == i
      invariant forall j :: 0 <= j < i ==> decode(lines[j]) == Some(items[j])
    {
      var next := decode(lines[i]);
      if next.None? {
        DecodeDetermined(decode, lines, items);
        return items, false;
      }
      items := items + [next.value];
      i := i + 1;
    }
    DecodeDetermined(decode, lines, items);
    clean := s.endedCleanly;
  }

  /** The contract of `DecodeUntilError` determines its result: nothing else decodes a prefix that way. */
  lemma {:induction false} DecodeDetermined<T>(decode: string -> Option<T>, lines: seq<string>, items: seq<T>)
    requires |items| <= |lines|
    requires forall j :: 0 <= j < |items| ==> decode(lines[j]) == Some(items[j])
    requires |items| < |lines| ==> decode(lines[|items|]) == None
    ensures DecodeUntilError(decode, lines) == Read(items, |items| == |lines|)
  {
    if items != [] {
      assert forall j :: 0 <= j < |items| - 1 ==> lines[1..][j] == lines[j + 1] && items[1..][j] == items[j + 1];
      DecodeDetermined(decode, lines[1..], items[1..]);
      assert items == [items[0]] + items[1..];
    }
  }

  // ---------------------------------------------------------------- event_stream

  /** Events yielded by `event_stream` over the sessions it opens, in order. */
  function EventStreamEvents(parse: string -> Option<Event>, sessions: seq<Session>): seq<Event> {
    if sessions == [] then []
    else SessionRead(StreamDecoder(parse), sessions[0]).items + EventStreamEvents(parse, sessions[1..])
  }

  /** The sessions that end in an exception, each followed by a randomised sleep. */
  function FaultCount(parse: string -> Option<Event>, sessions: seq<Session>): (n: nat)
    ensures n <= |sessions|
  {
    if sessions == [] then 0
    else
      var fault := if SessionRead(StreamDecoder(parse), sessions[0]).clean then 0 else 1;
      fault + FaultCount(parse, sessions[1..])
  }

  /** Reading the session at position `k` accounts for its events and its pause. */
  lemma EventStreamStep(parse: string -> Option<Event>, sessions: seq<Session>, k: nat)
    requires k < |sessions|
    ensures EventStreamEvents(parse, sessions[k..])
      == SessionRead(StreamDecoder(parse), sessions[k]).items + EventStreamEvents(parse, sessions[k + 1..])
    ensures FaultCount(parse, sessions[k..])
      == (if SessionRead(StreamDecoder(parse), sessions[k]).clean then 0 else 1) + FaultCount(parse, sessions[k + 1..])
  {
    assert sessions[k..][0] == sessions[k] && sessions[k..][1..] == sessions[k + 1..];
  }

  /**
   * `event_stream` over the first `|sessions|` sessions it opens.  Whatever a session's
   * outcome, the loop reopens the stream: after a fault it pauses first, after a clean end
   * it reopens at once.
   */
  method EventStream(parse: string -> Option<Event>, sessions: seq<Session>)
    returns (events: seq<Event>, pauses: nat)
    ensures events == EventStreamEvents(parse, sessions)
    ensures pauses == FaultCount(parse, sessions)
  {
    events, pauses := [], 0;
    var k := 0;
    while k < |sessions|
      invariant 0 <= k <= |sessions|
      invariant EventStreamEvents(parse, sessions) == events + EventStreamEvents(parse, sessions[k..])
      invariant FaultCount(parse, sessions) == pauses + FaultCount(parse, sessions[k..])
    {
      EventStreamStep(parse, sessions, k);
      var got, clean := ReadSession(StreamDecoder(parse), sessions[k]);
      events := events + got;
      if !clean {
        pauses := pauses + 1;
      }
      k := k + 1;
    }
    assert sessions[k..] == [];
  }

  /** No session ends `event_stream`: reading more sessions only appends events. */
  lemma {:induction false} EventStreamNeverStops(parse: string -> Option<Event>, a: seq<Session>, b: seq<Session>)
    ensures EventStreamEvents(parse, a + b) == EventStreamEvents(parse, a) + EventStreamEvents(parse, b)
  {
    if a != [] {
      assert (a + b)[0] == a[0] && (a + b)[1..] == a[1..] + b;
      EventStreamNeverStops(parse, a[1..], b);
      var first := SessionRead(StreamDecoder(parse), a[0]).items;
      calc {
        EventStreamEvents(parse, a + b);
        first + EventStreamEvents(parse, a[1..] + b);
        first + (EventStreamEvents(parse, a[1..]) + EventStreamEvents(parse, b));
        (first + EventStreamEvents(parse, a[1..])) + EventStreamEvents(parse, b);
      }
    } else {
      assert a + b == b;
    }
  }

  /** A blank line received on an open session reaches the consumer as exactly one ping. */
  lemma {:induction false} BlankLineIsPing(parse: string -> Option<Event>, lines: seq<string>, i: nat)
    requires i < |lines| && IsBlank(lines[i])
    requires forall j :: 0 <= j < i ==> parse(lines[j]).Some? || IsBlank(lines[j])
    ensures |DecodeUntilError(StreamDecoder(parse), lines).items| > i
    ensures DecodeUntilError(StreamDecoder(parse), lines).items[i] == Ping
  {
    var r := DecodeUntilError(StreamDecoder(parse), lines);
    if |r.items| <= i {
      assert false;
    }
  }

  // ---------------------------------------------------------------- game_stream

  /**
   * `game_stream` over the sessions it opens: a session that ends cleanly makes the
   * generator return (`clean` of the result); any fault reopens the stream.
   */
  function GameStreamRead(parse: string -> Option<Event>, sessions: seq<Session>): (r: Read<Event>)
    ensures r.clean <==> exists k :: 0 <= k < |sessions| && SessionRead(StreamDecoder(parse), sessions[k]).clean
  {
    if sessions == [] then Read([], false)
    else
      var first := SessionRead(StreamDecoder(parse), sessions[0]);
      if first.clean then Read(first.items, true)
      else
        var rest := GameStreamRead(parse, sessions[1..]);
        assert forall k :: 1 <= k < |sessions| ==> sessions[k] == sessions[1..][k - 1];
        Read(first.items + rest.items, rest.clean)
  }

  /** Reading the session at position `k`: a clean end returns, a fault moves on to the next one. */
  lemma GameStreamStep(parse: string -> Option<Event>, sessions: seq<Session>, k: nat)
    requires k < |sessions|
    ensures var first := SessionRead(StreamDecoder(parse), sessions[k]);
      var rest := GameStreamRead(parse, sessions[k + 1..]);
      GameStreamRead(parse, sessions[k..])
        == if first.clean then Read(first.items, true) else Read(first.items + rest.items, rest.clean)
  {
    assert sessions[k..][0] == sessions[k] && sessions[k..][1..] == sessions[k + 1..];
  }

  /** `game_stream`: the events yielded, whether the generator returned, and how many sessions it opened. */
  method GameStream(parse: string -> Option<Event>, sessions: seq<Session>)
    returns (events: seq<Event>, returned: bool, openings: nat)
    ensures Read(events, returned) == GameStreamRead(parse, sessions)
    ensures openings <= |sessions|
    ensures returned ==> 0 < openings && SessionRead(StreamDecoder(parse), sessions[openings - 1]).clean
    ensures forall k :: 0 <= k < openings - 1 ==> !SessionRead(StreamDecoder(parse), sessions[k]).clean
    ensures !returned ==> openings == |sessions|
  {
    events, returned, openings := [], false, 0;
    while openings < |sessions|
      invariant 0 <= openings <= |sessions|
      invariant GameStreamRead(parse, sessions).items == events + GameStreamRead(parse, sessions[openings..]).items
      invariant GameStreamRead(parse, sessions).clean == GameStreamRead(parse, sessions[openings..]).clean
      invariant forall k :: 0 <= k < openings ==> !SessionRead(StreamDecoder(parse), sessions[k]).clean
    {
      GameStreamStep(parse, sessions, openings);
      var got, clean := ReadSession(StreamDecoder(parse), sessions[openings]);
      events := events + got;
      openings := openings + 1;
      if clean {
        returned := true;
        return;
      }
    }
    assert sessions[openings..] == [];
  }

  /** Sessions after the first clean one are never opened by `game_stream`. */
  lemma {:induction false} GameStreamStopsAfterCleanEnd(parse: string -> Option<Event>, a: seq<Session>, b: seq<Session>)
    requires GameStreamRead(parse, a).clean
    ensures GameStreamRead(parse, a + b) == GameStreamRead(parse, a)
  {
    assert a != [];
    assert (a + b)[1..] == a[1..] + b;
    if !SessionRead(StreamDecoder(parse), a[0]).clean {
      GameStreamStopsAfterCleanEnd(parse, a[1..], b);
    }
  }

  /**
   * Over the same sessions, `game_stream` yields a prefix of what `event_stream` would, and
   * all of it while no session has ended cleanly.
   */
  lemma {:induction false} GameStreamIsPrefixOfEventStream(parse: string -> Option<Event>, sessions: seq<Session>)
    ensures GameStreamRead(parse, sessions).items <= EventStreamEvents(parse, sessions)
    ensures !GameStreamRead(parse, sessions).clean ==>
      GameStreamRead(parse, sessions).items == EventStreamEvents(parse, sessions)
  {
    if sessions != [] {
      GameStreamIsPrefixOfEventStream(parse, sessions[1..]);
    }
  }

  /**
   * When session `k` is the first to end cleanly, `game_stream` yields exactly what
   * `event_stream` yields over sessions `0..k`: the events of the session that ends it
   * included.
   */
  lemma {:induction false} GameStreamEndsWithCleanSession(parse: string -> Option<Event>, sessions: seq<Session>, k: nat)
    requires k < |sessions| && SessionRead(StreamDecoder(parse), sessions[k]).clean
    requires forall j :: 0 <= j < k ==> !SessionRead(StreamDecoder(parse), sessions[j]).clean
    ensures GameStreamRead(parse, sessions) == Read(EventStreamEvents(parse, sessions[..k + 1]), true)
  {
    var prefix := sessions[..k + 1];
    assert prefix[0] == sessions[0];
    if k == 0 {
      assert prefix[1..] == [];
    } else {
      assert prefix[1..] == sessions[1..][..k];
      assert forall j :: 0 <= j < k - 1 ==> sessions[1..][j] == sessions[j + 1];
      GameStreamEndsWithCleanSession(parse, sessions[1..], k - 1);
    }
  }

  // ---------------------------------------------------------------- get_online_bots

  /** The line decoder of `get_online_bots`: plain `json.loads`, with no ping rule. */
  function BotDecoder<T>(parse: string -> Option<T>): string -> Option<T> {
    l => JsonLoads(parse, l)
  }

  /**
   * `get_online_bots`: one session, each line handed to `json.loads` (no ping rule), and no
   * reconnect: the first error ends the generator.
   */
  method OnlineBots<T>(parse: string -> Option<T>, s: Session) returns (bots: seq<T>)
    ensures bots == SessionRead(BotDecoder(parse), s).items
  {
    var clean;
    bots, clean := ReadSession(BotDecoder(parse), s);
  }

  /** A blank line ends `get_online_bots`: nothing at or after it is yielded. */
  lemma OnlineBotsStopAtBlankLine<T>(parse: string -> Option<T>, s: Session, i: nat)
    requires s.Responded? && i < |s.lines| && IsBlank(s.lines[i])
    ensures |SessionRead(BotDecoder(parse), s).items| <= i
  {
    var r := DecodeUntilError(BotDecoder(parse), s.lines);
    if |r.items| > i {
      assert false;
    }
  }

  // ---------------------------------------------------------------- post

  /** What one physical POST produced. */
  datatype Reply = RequestError | Response(status: int)

  /** What `post` hands back: a response, or `None` once it gives up on network errors. */
  datatype PostResult = Returned(status: int) | GaveUp

  /** Both backoff layers retry: `RequestError` (constant backoff) and status >= 500 (exponential). */
  predicate Retryable(r: Reply) {
    r.RequestError? || r.status >= 500
  }

  /**
   * How many requests `post` issues.  `replies` lists the answers to the successive requests
   * until the retry policy's time ceiling is reached, so its last element is the last answer
   * `post` can receive.  Requests go on while the answer is retryable and the ceiling is not
   * reached.
   */
  function Attempts(replies: seq<Reply>): (n: nat)
    requires |replies| > 0
    ensures 1 <= n <= |replies|
    ensures forall i :: 0 <= i < n - 1 ==> Retryable(replies[i])
    ensures n < |replies| ==> !Retryable(replies[n - 1])
  {
    if |replies| == 1 || !Retryable(replies[0]) then 1 else 1 + Attempts(replies[1..])
  }

  /**
   * What `post` returns: the last answer it received, a non-retryable answer at once, the
   * last 5xx response when the exponential layer gives up, and `None` when the network-error
   * layer gives up (`raise_on_giveup=False`: it never raises).
   */
  function PostOutcome(replies: seq<Reply>): (r: PostResult)
    requires |replies| > 0
    ensures r == GaveUp ==> Attempts(replies) == |replies|
    ensures r.Returned? && r.status >= 500 ==> Attempts(replies) == |replies|
  {
    match replies[Attempts(replies) - 1]
    case RequestError => GaveUp
    case Response(status) => Returned(status)
  }

  /** The characterisation in `Attempts`' contract fixes the number of requests. */
  lemma {:induction false} AttemptsDetermined(replies: seq<Reply>, n: nat)
    requires 1 <= n <= |replies|
    requires forall i :: 0 <= i < n - 1 ==> Retryable(replies[i])
    requires n < |replies| ==> !Retryable(replies[n - 1])
    ensures n == Attempts(replies)
  {
    if n > 1 {
      AttemptsDetermined(replies[1..], n - 1);
    }
  }

  /** `post`: re-issues the request while the answer is retryable, then returns the last answer. */
  method Post(replies: seq<Reply>) returns (result: PostResult, requests: nat)
    requires |replies| > 0
    ensures requests == Attempts(replies)
    ensures result == PostOutcome(replies)
  {
    requests := 1;
    while Retryable(replies[requests - 1]) && requests < |replies|
      invariant 1 <= requests <= |replies|
      invariant forall i :: 0 <= i < requests - 1 ==> Retryable(replies[i])
    {
      requests := requests + 1;
    }
    AttemptsDetermined(replies, requests);
    var last := replies[requests - 1];
    result := if last.RequestError? then GaveUp else Returned(last.status);
  }

  /** A response below 500 (a 4xx included) is definitive: one request, and that response is returned. */
  lemma NonServerErrorIsNotRetried(replies: seq<Reply>)
    requires |replies| > 0 && replies[0].Response? && replies[0].status < 500
    ensures Attempts(replies) == 1
    ensures PostOutcome(replies) == Returned(replies[0].status)
  {
  }

  /** Two 5xx answers followed by a 2xx: the request is retried exactly twice and the 2xx is returned. */
  lemma TwoServerErrorsThenSuccess(replies: seq<Reply>)
    requires |replies| >= 3
    requires replies[0].Response? && replies[0].status >= 500
    requires replies[1].Response? && replies[1].status >= 500
    requires replies[2].Response? && IsSuccess(replies[2].status)
    ensures Attempts(replies) == 3
    ensures PostOutcome(replies) == Returned(replies[2].status)
  {
    assert Attempts(replies[2..]) == 1;
  }
}
