/** The alert stream client: incremental event-stream parsing inside a reconnect loop. */
module AlertStream {
  import opened Wrappers
  import opened Json

  // ---------- the pure parts ----------

  const RECONNECT_DELAY_MS: nat := 3000
  const MAX_RECONNECT_DELAY_MS: nat := 60_000

  function Pow2(n: nat): (r: nat)
    ensures r >= 1
  {
    if n == 0 then 1 else 2 * Pow2(n - 1)
  }

  /** alertStreamReconnectDelayMs */
  function ReconnectDelay(attempt: int): nat {
    var d := RECONNECT_DELAY_MS * Pow2(if attempt < 0 then 0 else attempt);
    if d < MAX_RECONNECT_DELAY_MS then d else MAX_RECONNECT_DELAY_MS
  }

  /** The first place of c in t, or |t|. */
  function IndexOf(t: string, c: char): (i: nat)
    ensures i <= |t| && (i < |t| ==> t[i] == c)
    ensures forall k | 0 <= k < i :: t[k] != c
  {
    if t == "" || t[0] == c then 0 else 1 + IndexOf(t[1..], c)
  }

  function DropSpace(t: string): string {
    if t != "" && t[0] == ' ' then t[1..] else t
  }

  datatype Field = Field(name: string, value: string)

  /** parseSseLine on a non-empty line. A comment and a field named "comment" look alike. */
  function ParseSseLine(line: string): Field
    requires line != ""
  {
    if line[0] == ':' then Field("comment", DropSpace(line[1..]))
    else
      var colon := IndexOf(line, ':');
      if colon == |line| then Field(line, "")
      else Field(line[..colon], DropSpace(line[colon + 1..]))
  }

  // ---------- the state of one client ----------

  /** The id handed to onEvent: the event's own, or a time stamp when the event has none. */
  datatype EventId = Own(id: string) | TimeStamp

  datatype Status = Live | Reconnecting | Disconnected

  datatype Call =
    | OnConnected
    | OnStatus(status: Status)
    | OnEvent(id: EventId, payload: Json)
    | OnHeartbeat
    | Sleep(ms: nat)

  /** A dispatched block, whether or not its data is valid JSON. */
  datatype Block = Block(id: Option<string>, data: string)

  /** JSON.parse, left open: None where it throws. */
  type JsonParse = string -> Option<Json>

  /** What the parsing loop reads and writes; blocks records every dispatch. */
  datatype Parse = Parse(
    lastEventId: Option<string>, eventId: Option<string>, data: Option<string>,
    calls: seq<Call>, blocks: seq<Block>)

  function EventCalls(parse: JsonParse, b: Block): seq<Call> {
    match parse(b.data)
    case None => []
    case Some(v) => [OnEvent(if b.id.None? then TimeStamp else Own(b.id.value), v)]
  }

  /** The blank line: hand the assembled event on and start afresh. */
  function Dispatch(parse: JsonParse, s: Parse): Parse {
    if s.data.None? then s.(eventId := None)
    else
      var b := Block(s.eventId, s.data.value);
      Parse(if b.id.Some? && b.id.value != "" then b.id else s.lastEventId, None, None,
            s.calls + EventCalls(parse, b), s.blocks + [b])
  }

  /** The loop body on one line without its newline. */
  function Line(parse: JsonParse, s: Parse, raw: string): Parse {
    var line := if raw != "" && raw[|raw| - 1] == '\r' then raw[..|raw| - 1] else raw;
    if line == "" then Dispatch(parse, s)
    else
      var f := ParseSseLine(line);
      if f.name == "comment" then (if f.value == "heartbeat" then s.(calls := s.calls + [OnHeartbeat]) else s)
      else if f.name == "id" then s.(eventId := Some(f.value))
      else if f.name == "data" then s.(data := Some(f.value))
      else s
  }

  /** All complete lines of a text, and the unfinished rest. */
  function Run(parse: JsonParse, s: Parse, text: string): (r: (Parse, string))
    ensures '\n' !in r.1
    decreases |text|
  {
    var i := IndexOf(text, '\n');
    if i == |text| then (s, text) else Run(parse, Line(parse, s, text[..i]), text[i + 1..])
  }

  function Flatten(chunks: seq<string>): string {
    if chunks == [] then "" else chunks[0] + Flatten(chunks[1..])
  }

  /** Feeding chunk by chunk: the buffer carries the unfinished line over. */
  function Feed(parse: JsonParse, s: Parse, buffer: string, chunks: seq<string>): (Parse, string)
    decreases chunks
  {
    if chunks == [] then (s, buffer)
    else
      var (s', rest) := Run(parse, s, buffer + chunks[0]);
      Feed(parse, s', rest, chunks[1..])
  }

  // ---------- chunk independence ----------

  lemma {:induction false} IndexOfAppend(a: string, b: string, c: char)
    ensures IndexOf(a + b, c) == if IndexOf(a, c) < |a| then IndexOf(a, c) else |a| + IndexOf(b, c)
  {
    if a == "" {
      assert a + b == b;
    } else {
      assert (a + b)[1..] == a[1..] + b;
      IndexOfAppend(a[1..], b, c);
    }
  }

  lemma {:induction false} RunAppend(parse: JsonParse, s: Parse, a: string, b: string)
    ensures var (s', rest) := Run(parse, s, a); Run(parse, s, a + b) == Run(parse, s', rest + b)
    decreases |a|
  {
    var i := IndexOf(a, '\n');
    IndexOfAppend(a, b, '\n');
    if i < |a| {
      assert (a + b)[..i] == a[..i] && (a + b)[i + 1..] == a[i + 1..] + b;
      RunAppend(parse, Line(parse, s, a[..i]), a[i + 1..], b);
    }
  }

  lemma NoLineYet(parse: JsonParse, s: Parse, t: string)
    requires '\n' !in t
    ensures Run(parse, s, t) == (s, t)
  {
  }

  /** Any way of cutting the text into chunks gives the calls, state and buffer of the whole text. */
  lemma {:induction false} ChunkIndependence(parse: JsonParse, s: Parse, buffer: string, chunks: seq<string>)
    requires '\n' !in buffer
    ensures Feed(parse, s, buffer, chunks) == Run(parse, s, buffer + Flatten(chunks))
    ensures '\n' !in Feed(parse, s, buffer, chunks).1
    decreases chunks
  {
    hide Run, Line;
    if chunks == [] {
      assert buffer + "" == buffer;
      NoLineYet(parse, s, buffer);
    } else {
      var (s', rest) := Run(parse, s, buffer + chunks[0]);
      ChunkIndependence(parse, s', rest, chunks[1..]);
      RunAppend(parse, s, buffer + chunks[0], Flatten(chunks[1..]));
      assert buffer + Flatten(chunks) == buffer + chunks[0] + Flatten(chunks[1..]);
    }
  }

  // ---------- the connection and the loop ----------

  /** How a connection that was opened ends; the abort signal is only raised by closing the client. */
  datatype End = Done | ReadFailed | ClosedByUser

  datatype Attempt =
    | FetchAborted
    | FetchFailed
    | Refused
    | Opened(chunks: seq<string>, end: End)

  datatype Client = Client(
    lastEventId: Option<string>, attempt: nat, calls: seq<Call>, blocks: seq<Block>, closed: bool)

  /** connectOnce, and whether to retry. */
  function Connect(parse: JsonParse, c: Client, a: Attempt): (Client, bool) {
    match a
    case FetchAborted => (c.(closed := true), false)
    case FetchFailed => (c, true)
    case Refused => (c, true)
    case Opened(chunks, end) =>
      var s := Feed(parse, Parse(c.lastEventId, None, None, c.calls + [OnConnected, OnStatus(Live)], c.blocks),
                    "", chunks).0;
      (Client(s.lastEventId, 0, s.calls, s.blocks, end.ClosedByUser?), !end.ClosedByUser?)
  }

  /** One turn of runLoop: connect, and on retry report, sleep and count. */
  function Turn(parse: JsonParse, c: Client, a: Attempt): Client {
    var (c', retry) := Connect(parse, c, a);
    if !retry || c'.closed then
      (if c'.closed then c' else c'.(calls := c'.calls + [OnStatus(Disconnected)]))
    else c'.(calls := c'.calls + [OnStatus(Reconnecting), Sleep(ReconnectDelay(c'.attempt))], attempt := c'.attempt + 1)
  }

  /** runLoop against the connections the network grants. */
  function RunLoop(parse: JsonParse, c: Client, script: seq<Attempt>): Client
    decreases |script|
  {
    if script == [] || c.closed then c else RunLoop(parse, Turn(parse, c, script[0]), script[1..])
  }

  const FRESH := Client(None, 0, [], [], false)

  class AlertStreamClient {
    const parse: JsonParse
    var closed: bool
    var lastEventId: Option<string>
    var reconnectAttempt: nat
    var calls: seq<Call>
    ghost var blocks: seq<Block>

    constructor (parse: JsonParse)
      ensures this.parse == parse && State() == FRESH
    {
      this.parse := parse;
      closed, lastEventId, reconnectAttempt, calls, blocks := false, None, 0, [], [];
    }

    ghost function State(): Client
      reads this
    {
      Client(lastEventId, reconnectAttempt, calls, blocks, closed)
    }

    method ConnectOnce(a: Attempt) returns (retry: bool)
      requires !closed
      modifies this
      ensures (State(), retry) == Connect(parse, old(State()), a)
    {
      match a
      case FetchAborted =>
        closed := true;
        return false;
      case FetchFailed =>
        return true;
      case Refused =>
        return true;
      case Opened(chunks, end) =>
        reconnectAttempt := 0;
        calls := calls + [OnConnected, OnStatus(Live)];
        var buffer := "";
        var currentEventId: Option<string> := None;
        var currentData: Option<string> := None;
        ghost var goal := Feed(parse, Parse(lastEventId, None, None, calls, blocks), "", chunks);
        for i := 0 to |chunks|
          invariant goal ==
            Feed(parse, Parse(lastEventId, currentEventId, currentData, calls, blocks), buffer, chunks[i..])
          invariant reconnectAttempt == 0 && !closed
        {
          buffer, currentEventId, currentData := ReadChunk(buffer + chunks[i], currentEventId, currentData);
          assert chunks[i..][0] == chunks[i] && chunks[i..][1..] == chunks[i + 1..];
        }
        assert chunks[|chunks|..] == [];
        closed := end.ClosedByUser?;
        return !closed;
    }

    /** The inner loop: every complete line of the buffer. */
    method ReadChunk(text: string, eventId: Option<string>, data: Option<string>)
      returns (buffer: string, currentEventId: Option<string>, currentData: Option<string>)
      modifies this`lastEventId, this`calls, this`blocks
      ensures (Parse(lastEventId, currentEventId, currentData, calls, blocks), buffer)
           == Run(parse, Parse(old(lastEventId), eventId, data, old(calls), old(blocks)), text)
    {
      buffer, currentEventId, currentData := text, eventId, data;
      var newline := IndexOf(buffer, '\n');
      while newline < |buffer|
        invariant newline == IndexOf(buffer, '\n')
        invariant Run(parse, Parse(lastEventId, currentEventId, currentData, calls, blocks), buffer)
               == Run(parse, Parse(old(lastEventId), eventId, data, old(calls), old(blocks)), text)
        decreases |buffer|
      {
        var rawLine := buffer[..newline];
        buffer := buffer[newline + 1..];
        newline := IndexOf(buffer, '\n');
        var line := if rawLine != "" && rawLine[|rawLine| - 1] == '\r' then rawLine[..|rawLine| - 1] else rawLine;
        if line == "" {
          if currentData.Some? {
            if currentEventId.Some? && currentEventId.value != "" {
              lastEventId := currentEventId;
            }
            calls := calls + EventCalls(parse, Block(currentEventId, currentData.value));
            blocks := blocks + [Block(currentEventId, currentData.value)];
          }
          currentEventId, currentData := None, None;
        } else {
          var parsed := ParseSseLine(line);
          if parsed.name == "comment" {
            if parsed.value == "heartbeat" {
              calls := calls + [OnHeartbeat];
            }
          } else if parsed.name == "id" {
            currentEventId := Some(parsed.value);
          } else if parsed.name == "data" {
            currentData := Some(parsed.value);
          }
        }
      }
    }

    method Loop(script: seq<Attempt>)
      modifies this
      ensures State() == RunLoop(parse, old(State()), script)
    {
      var i := 0;
      while i < |script| && !closed
        invariant i <= |script|
        invariant RunLoop(parse, State(), script[i..]) == RunLoop(parse, old(State()), script)
      {
        assert script[i..][0] == script[i] && script[i..][1..] == script[i + 1..];
        var shouldRetry := ConnectOnce(script[i]);
        i := i + 1;
        if !shouldRetry || closed {
          if !closed {
            calls := calls + [OnStatus(Disconnected)];
          }
          continue;
        }
        calls := calls + [OnStatus(Reconnecting), Sleep(ReconnectDelay(reconnectAttempt))];
        reconnectAttempt := reconnectAttempt + 1;
      }
    }
  }

  // ---------- back-off ----------

  lemma {:induction false} Pow2Monotone(m: nat, n: nat)
    requires m <= n
    ensures Pow2(m) <= Pow2(n)
  {
    if m < n { Pow2Monotone(m, n - 1); }
  }

  /** The delay never leaves [3000, 60000] and never falls as attempts accumulate. */
  lemma {:induction false} DelayBounded(m: int, n: int)
    requires m <= n
    ensures 3000 <= ReconnectDelay(m) <= ReconnectDelay(n) <= 60_000
  {
    Pow2Monotone(if m < 0 then 0 else m, if n < 0 then 0 else n);
  }

  /** The sleeps of a call log. */
  function Sleeps(calls: seq<Call>): seq<nat> {
    if calls == [] then []
    else
      var c := calls[|calls| - 1];
      Sleeps(calls[..|calls| - 1]) + (if c.Sleep? then [c.ms] else [])
  }

  predicate Failing(a: Attempt) {
    a.FetchFailed? || a.Refused?
  }

  lemma {:induction false} SleepsAppend(a: seq<Call>, b: seq<Call>)
    ensures Sleeps(a + b) == Sleeps(a) + Sleeps(b)
  {
    if b == [] {
      assert a + b == a;
    } else {
      assert (a + b)[..|a + b| - 1] == a + b[..|b| - 1];
      SleepsAppend(a, b[..|b| - 1]);
    }
  }

  /** n refusals in a row sleep 3000, 6000, .. up to the ceiling, from wherever the counter stands. */
  lemma {:induction false} RefusalsBackOff(parse: JsonParse, c: Client, script: seq<Attempt>)
    requires !c.closed && forall i | 0 <= i < |script| :: Failing(script[i])
    ensures var r := RunLoop(parse, c, script);
      !r.closed && r.attempt == c.attempt + |script| && r.lastEventId == c.lastEventId && r.blocks == c.blocks
      && Sleeps(r.calls) ==
         Sleeps(c.calls) + seq(|script|, i requires 0 <= i < |script| => ReconnectDelay(c.attempt + i))
    decreases |script|
  {
    if script != [] {
      var c' := Turn(parse, c, script[0]);
      SleepsAppend(c.calls, [OnStatus(Reconnecting), Sleep(ReconnectDelay(c.attempt))]);
      assert Sleeps([OnStatus(Reconnecting), Sleep(ReconnectDelay(c.attempt))]) == [ReconnectDelay(c.attempt)] by {
        assert [OnStatus(Reconnecting), Sleep(ReconnectDelay(c.attempt))][..1] == [OnStatus(Reconnecting)];
        assert [OnStatus(Reconnecting)][..0] == [];
      }
      RefusalsBackOff(parse, c', script[1..]);
    }
  }

  /** A connection that was opened and lost sleeps the base delay again. */
  lemma {:induction false} OpenedResetsDelay(parse: JsonParse, c: Client, chunks: seq<string>, end: End)
    requires !end.ClosedByUser?
    ensures var r := Turn(parse, c, Opened(chunks, end));
      r.attempt == 1 && r.calls != [] && r.calls[|r.calls| - 1] == Sleep(3000)
  {
  }

  /** The status 'disconnected' is never reported: the loop only ends by closing. */
  lemma {:induction false} NeverDisconnected(parse: JsonParse, c: Client, script: seq<Attempt>)
    requires OnStatus(Disconnected) !in c.calls
    ensures OnStatus(Disconnected) !in RunLoop(parse, c, script).calls
    decreases |script|
  {
    if script != [] && !c.closed {
      if script[0].Opened? {
        FeedReportsNoStatus(parse, Parse(c.lastEventId, None, None, c.calls + [OnConnected, OnStatus(Live)], c.blocks),
                            "", script[0].chunks);
      }
      NeverDisconnected(parse, Turn(parse, c, script[0]), script[1..]);
    }
  }

  lemma {:induction false} RunReportsNoStatus(parse: JsonParse, s: Parse, text: string)
    requires OnStatus(Disconnected) !in s.calls
    ensures OnStatus(Disconnected) !in Run(parse, s, text).0.calls
    decreases |text|
  {
    var i := IndexOf(text, '\n');
    if i < |text| {
      RunReportsNoStatus(parse, Line(parse, s, text[..i]), text[i + 1..]);
    }
  }

  lemma {:induction false} FeedReportsNoStatus(parse: JsonParse, s: Parse, buffer: string, chunks: seq<string>)
    requires OnStatus(Disconnected) !in s.calls
    ensures OnStatus(Disconnected) !in Feed(parse, s, buffer, chunks).0.calls
    decreases chunks
  {
    if chunks != [] {
      var (s', rest) := Run(parse, s, buffer + chunks[0]);
      RunReportsNoStatus(parse, s, buffer + chunks[0]);
      FeedReportsNoStatus(parse, s', rest, chunks[1..]);
    }
  }
}
