/** Delivery across reconnects: the client of AlertStream against the server that feeds it. */
module Delivery {
  import opened Wrappers
  import opened AlertStream

  // ---------- the server ----------

  /** One event of a workspace stream. */
  datatype Entry = Entry(id: string, data: string)

  /** What the server writes between events is a preamble or a heartbeat. */
  datatype Frame = Hello | Beat | Event(entry: Entry)

  function FrameText(f: Frame): string {
    match f
    case Hello => "retry: 3000\n" + (": connected\n" + "\n")
    case Beat => ": heartbeat\n" + "\n"
    case Event(e) => ("id: " + e.id + "\n") + (("data: " + e.data + "\n") + "\n")
  }

  function Wire(frames: seq<Frame>): string {
    if frames == [] then "" else FrameText(frames[0]) + Wire(frames[1..])
  }

  function FrameEntries(f: Frame): seq<Entry> {
    if f.Event? then [f.entry] else []
  }

  function Entries(frames: seq<Frame>): seq<Entry> {
    if frames == [] then [] else FrameEntries(frames[0]) + Entries(frames[1..])
  }

  /** Ids are non-empty and, like the data, on one line. */
  predicate OneLine(s: string) {
    '\n' !in s && '\r' !in s
  }

  predicate Sound(e: Entry) {
    e.id != "" && OneLine(e.id) && OneLine(e.data)
  }

  predicate UniqueIds(log: seq<Entry>) {
    forall i, j | 0 <= i < j < |log| :: log[i].id != log[j].id
  }

  predicate AllSound(es: seq<Entry>) {
    forall i | 0 <= i < |es| :: Sound(es[i])
  }

  /** A log the server can serve. */
  predicate GoodLog(log: seq<Entry>) {
    UniqueIds(log) && AllSound(log)
  }

  /** One connection: the log it serves from, where it starts without Last-Event-ID, and what came through. */
  datatype Session = Session(log: seq<Entry>, start: nat, frames: seq<Frame>, attempt: Attempt)

  /** Where the server resumes: after the entry with the given id, or at start. */
  predicate ResumesAt(s: Session, last: Option<string>, k: nat) {
    k <= |s.log| && match last
                    case None => k == s.start
                    case Some(id) => k > 0 && s.log[k - 1].id == id
  }

  /** The server resends every entry after Last-Event-ID; the connection is cut at any character. */
  ghost predicate Serves(s: Session, last: Option<string>) {
    s.attempt.Opened? ==>
      Flatten(s.attempt.chunks) <= Wire(s.frames)
      && exists k: nat :: ResumesAt(s, last, k) && Entries(s.frames) == s.log[k..]
  }

  // ---------- blocks on the wire ----------

  function BlockOf(e: Entry): Block {
    Block(Some(e.id), e.data)
  }

  function BlocksOf(es: seq<Entry>): (r: seq<Block>)
    ensures |r| == |es|
  {
    seq(|es|, i requires 0 <= i < |es| => BlockOf(es[i]))
  }

  /** Between frames no event is being assembled. */
  predicate Idle(s: Parse) {
    s.eventId.None? && s.data.None?
  }

  lemma {:induction false} NewlineAt(l: string, rest: string)
    requires '\n' !in l
    ensures IndexOf(l + "\n" + rest, '\n') == |l|
  {
    if l == "" {
    } else {
      assert (l + "\n" + rest)[1..] == l[1..] + "\n" + rest;
      NewlineAt(l[1..], rest);
    }
  }

  /** A complete line at the front of the text. */
  lemma RunLine(parse: JsonParse, s: Parse, l: string, rest: string)
    requires '\n' !in l
    ensures Run(parse, s, (l + "\n") + rest) == Run(parse, Line(parse, s, l), rest)
  {
    var t := (l + "\n") + rest;
    assert t == l + "\n" + rest;
    NewlineAt(l, rest);
    assert t[..|l|] == l && t[|l| + 1..] == rest;
  }

  lemma ColonAt(name: string, value: string)
    requires ':' !in name && name != ""
    ensures ParseSseLine(name + ": " + value) == Field(name, value)
  {
    var t := name + ": " + value;
    assert t[|name|] == ':' && t[0] == name[0];
    assert forall k | 0 <= k < |name| :: t[k] == name[k];
    assert t[..|name|] == name && t[|name| + 1..] == " " + value;
    assert (" " + value)[1..] == value;
  }

  lemma IdLine(parse: JsonParse, s: Parse, id: string)
    requires OneLine(id)
    ensures Line(parse, s, "id: " + id) == s.(eventId := Some(id))
  {
    var t := "id: " + id;
    assert t[|t| - 1] != '\r';
    ColonAt("id", id);
    assert t == "id" + ": " + id;
  }

  lemma DataLine(parse: JsonParse, s: Parse, data: string)
    requires OneLine(data)
    ensures Line(parse, s, "data: " + data) == s.(data := Some(data))
  {
    var t := "data: " + data;
    assert t[|t| - 1] != '\r';
    ColonAt("data", data);
    assert t == "data" + ": " + data;
  }

  /** The state after a whole frame. */
  function AfterFrame(parse: JsonParse, s: Parse, f: Frame): Parse {
    match f
    case Hello => s
    case Beat => s.(calls := s.calls + [OnHeartbeat])
    case Event(e) => Parse(Some(e.id), None, None, s.calls + EventCalls(parse, BlockOf(e)), s.blocks + [BlockOf(e)])
  }

  lemma CommentLine(parse: JsonParse, s: Parse, value: string)
    requires OneLine(value)
    ensures Line(parse, s, ": " + value)
         == if value == "heartbeat" then s.(calls := s.calls + [OnHeartbeat]) else s
  {
    var t := ": " + value;
    assert t[|t| - 1] != '\r';
    assert t[1..] == " " + value && (" " + value)[1..] == value;
  }

  lemma BlankLine(parse: JsonParse, s: Parse, rest: string)
    ensures Run(parse, s, "\n" + rest) == Run(parse, Dispatch(parse, s), rest)
  {
    RunLine(parse, s, "", rest);
    assert ("" + "\n") + rest == "\n" + rest;
  }

  lemma HelloRuns(parse: JsonParse, s: Parse, rest: string)
    requires Idle(s)
    ensures Run(parse, s, FrameText(Hello) + rest) == Run(parse, s, rest)
  {
    hide Run, Line;
    assert FrameText(Hello) + rest == ("retry: 3000" + "\n") + ((": connected" + "\n") + ("\n" + rest));
    RunLine(parse, s, "retry: 3000", (": connected" + "\n") + ("\n" + rest));
    RetryLine(parse, s);
    RunLine(parse, s, ": connected", "\n" + rest);
    CommentLine(parse, s, "connected");
    assert ": connected" == ": " + "connected";
    BlankLine(parse, s, rest);
  }

  lemma RetryLine(parse: JsonParse, s: Parse)
    ensures Line(parse, s, "retry: 3000") == s
  {
    var t := "retry: 3000";
    assert t == "retry" + ": " + "3000";
    assert t[|t| - 1] == '0';
    ColonAt("retry", "3000");
    hide ParseSseLine;
  }

  lemma BeatRuns(parse: JsonParse, s: Parse, rest: string)
    requires Idle(s)
    ensures Run(parse, s, FrameText(Beat) + rest) == Run(parse, AfterFrame(parse, s, Beat), rest)
  {
    hide Run, Line;
    assert FrameText(Beat) + rest == (": heartbeat" + "\n") + ("\n" + rest);
    RunLine(parse, s, ": heartbeat", "\n" + rest);
    CommentLine(parse, s, "heartbeat");
    assert ": heartbeat" == ": " + "heartbeat";
    BlankLine(parse, AfterFrame(parse, s, Beat), rest);
  }

  lemma EventRuns(parse: JsonParse, s: Parse, e: Entry, rest: string)
    requires Idle(s) && Sound(e)
    ensures Run(parse, s, FrameText(Event(e)) + rest) == Run(parse, AfterFrame(parse, s, Event(e)), rest)
  {
    hide Run, Line;
    var l1, l2 := "id: " + e.id, "data: " + e.data;
    assert FrameText(Event(e)) + rest == (l1 + "\n") + ((l2 + "\n") + ("\n" + rest));
    RunLine(parse, s, l1, (l2 + "\n") + ("\n" + rest));
    IdLine(parse, s, e.id);
    var s1 := s.(eventId := Some(e.id));
    RunLine(parse, s1, l2, "\n" + rest);
    DataLine(parse, s1, e.data);
    BlankLine(parse, s1.(data := Some(e.data)), rest);
  }

  lemma {:induction false} FrameRuns(parse: JsonParse, s: Parse, f: Frame, rest: string)
    requires Idle(s) && (f.Event? ==> Sound(f.entry))
    ensures Run(parse, s, FrameText(f) + rest) == Run(parse, AfterFrame(parse, s, f), rest)
    ensures Idle(AfterFrame(parse, s, f))
  {
    match f
    case Hello => HelloRuns(parse, s, rest);
    case Beat => BeatRuns(parse, s, rest);
    case Event(e) => EventRuns(parse, s, e, rest);
  }

  /** Nothing was dispatched between two states. */
  predicate Quiet(s: Parse, r: Parse) {
    r.blocks == s.blocks && r.lastEventId == s.lastEventId
  }

  lemma LineQuiet(parse: JsonParse, s: Parse, l: string)
    requires l != "" && l != "\r"
    ensures Quiet(s, Line(parse, s, l))
  {
  }

  /** A text in which no line is blank dispatches nothing. */
  lemma QuietText(parse: JsonParse, s: Parse, a: string, b: string, t: string)
    requires '\n' !in a && '\n' !in b && a != "" && b != "" && a != "\r" && b != "\r"
    requires t < (a + "\n") + ((b + "\n") + "\n")
    ensures Quiet(s, Run(parse, s, t).0)
  {
    if |t| <= |a| {
      assert t == a[..|t|];
      NoLineYet(parse, s, t);
    } else {
      var u := t[|a| + 1..];
      assert t == (a + "\n") + u;
      RunLine(parse, s, a, u);
      LineQuiet(parse, s, a);
      QuietLine(parse, Line(parse, s, a), b, u);
    }
  }

  lemma QuietLine(parse: JsonParse, s: Parse, b: string, u: string)
    requires '\n' !in b && b != "" && b != "\r" && u < (b + "\n") + "\n"
    ensures Quiet(s, Run(parse, s, u).0)
  {
    if |u| <= |b| {
      assert u == b[..|u|];
      NoLineYet(parse, s, u);
    } else {
      assert u == (b + "\n") + "";
      RunLine(parse, s, b, "");
      LineQuiet(parse, s, b);
    }
  }

  /** A frame that is cut off dispatches nothing. */
  lemma CutFrameQuiet(parse: JsonParse, s: Parse, f: Frame, t: string)
    requires (f.Event? ==> Sound(f.entry)) && t < FrameText(f)
    ensures Quiet(s, Run(parse, s, t).0)
  {
    hide Run, Line;
    match f
    case Hello =>
      assert FrameText(f) == ("retry: 3000" + "\n") + ((": connected" + "\n") + "\n");
      QuietText(parse, s, "retry: 3000", ": connected", t);
    case Beat =>
      assert FrameText(f) == (": heartbeat" + "\n") + "\n";
      QuietLine(parse, s, ": heartbeat", t);
    case Event(e) =>
      QuietText(parse, s, "id: " + e.id, "data: " + e.data, t);
  }

  /** From s to r exactly the entries es were dispatched. */
  predicate Dispatched(s: Parse, r: Parse, es: seq<Entry>) {
    r.blocks == s.blocks + BlocksOf(es)
    && r.lastEventId == if es == [] then s.lastEventId else Some(es[|es| - 1].id)
  }

  lemma DispatchedBoth(s: Parse, m: Parse, r: Parse, xs: seq<Entry>, ys: seq<Entry>)
    requires Dispatched(s, m, xs) && Dispatched(m, r, ys)
    ensures Dispatched(s, r, xs + ys)
  {
    assert BlocksOf(xs + ys) == BlocksOf(xs) + BlocksOf(ys);
  }

  lemma FrameDispatches(parse: JsonParse, s: Parse, f: Frame)
    ensures Dispatched(s, AfterFrame(parse, s, f), FrameEntries(f))
  {
    assert f.Event? ==> BlocksOf(FrameEntries(f)) == [BlockOf(f.entry)];
  }

  lemma SoundParts(f: Frame, more: seq<Entry>)
    requires AllSound(FrameEntries(f) + more)
    ensures (f.Event? ==> Sound(f.entry)) && AllSound(more)
  {
    var es := FrameEntries(f) + more;
    assert f.Event? ==> es[0] == f.entry;
    forall i | 0 <= i < |more| ensures Sound(more[i]) {
      assert es[|FrameEntries(f)| + i] == more[i];
    }
  }

  /** What a connection cut anywhere dispatches: the first j entries of its frames, for some j. */
  lemma {:induction false} CutWireDispatches(parse: JsonParse, s: Parse, frames: seq<Frame>, t: string) returns (j: nat)
    requires Idle(s) && t <= Wire(frames) && AllSound(Entries(frames))
    ensures j <= |Entries(frames)| && Dispatched(s, Run(parse, s, t).0, Entries(frames)[..j])
    ensures t == Wire(frames) ==> j == |Entries(frames)|
    decreases |frames|
  {
    hide Run, FrameText, AfterFrame, Dispatched, FrameEntries;
    j := 0;
    if frames == [] {
      NoLineYet(parse, s, t);
      NothingDispatched(s, s);
    } else {
      var f, more := frames[0], frames[1..];
      SoundParts(f, Entries(more));
      if |t| < |FrameText(f)| {
        assert t == FrameText(f)[..|t|];
        CutFrameQuiet(parse, s, f, t);
        NothingDispatched(s, Run(parse, s, t).0);
      } else {
        var u := t[|FrameText(f)|..];
        assert t == FrameText(f) + u && u <= Wire(more);
        FrameRuns(parse, s, f, u);
        FrameDispatches(parse, s, f);
        var k := CutWireDispatches(parse, AfterFrame(parse, s, f), more, u);
        j := |FrameEntries(f)| + k;
        DispatchedBoth(s, AfterFrame(parse, s, f), Run(parse, s, t).0, FrameEntries(f), Entries(more)[..k]);
        assert Entries(frames)[..j] == FrameEntries(f) + Entries(more)[..k];
      }
    }
  }

  lemma NothingDispatched(s: Parse, r: Parse)
    requires Quiet(s, r)
    ensures Dispatched(s, r, [])
  {
    assert BlocksOf([]) == [];
  }

  // ---------- whole runs ----------

  /** The client after the sessions, one attempt each. */
  function AfterSessions(parse: JsonParse, c: Client, ss: seq<Session>): Client
    decreases |ss|
  {
    if ss == [] || c.closed then c else AfterSessions(parse, Turn(parse, c, ss[0].attempt), ss[1..])
  }

  function Attempts(ss: seq<Session>): (r: seq<Attempt>)
    ensures |r| == |ss|
  {
    seq(|ss|, i requires 0 <= i < |ss| => ss[i].attempt)
  }

  /** The sessions are exactly a run of the client's reconnect loop. */
  lemma {:induction false} SessionsAreRuns(parse: JsonParse, c: Client, ss: seq<Session>)
    ensures AfterSessions(parse, c, ss) == RunLoop(parse, c, Attempts(ss))
    decreases |ss|
  {
    if ss != [] && !c.closed {
      assert Attempts(ss)[1..] == Attempts(ss[1..]);
      SessionsAreRuns(parse, Turn(parse, c, ss[0].attempt), ss[1..]);
    }
  }

  /** Logs only grow, and each connection is served from the id the client asks for. */
  ghost predicate ServedRun(parse: JsonParse, c: Client, ss: seq<Session>, log: seq<Entry>)
    decreases |ss|
  {
    ss == [] || c.closed ||
    (log <= ss[0].log && GoodLog(ss[0].log) && Serves(ss[0], c.lastEventId)
     && ServedRun(parse, Turn(parse, c, ss[0].attempt), ss[1..], ss[0].log))
  }

  /** What has been dispatched is one gapless stretch log[from..to], and the client's id marks its end. */
  predicate Delivered(c: Client, log: seq<Entry>, from: nat, to: nat) {
    from <= to <= |log| && c.blocks == BlocksOf(log[from..to])
    && c.lastEventId == if from == to then None else Some(log[to - 1].id)
  }

  /** The whole of the server's text arrived. */
  predicate Uncut(s: Session) {
    s.attempt.Opened? && Flatten(s.attempt.chunks) == Wire(s.frames)
  }

  /** A connection that was not opened dispatches nothing. */
  lemma UnopenedQuiet(parse: JsonParse, c: Client, a: Attempt)
    requires !a.Opened?
    ensures var r := Turn(parse, c, a); r.blocks == c.blocks && r.lastEventId == c.lastEventId
  {
  }

  /** What an opened connection adds, whatever the chunks. */
  lemma ConnectionDispatches(parse: JsonParse, c: Client, s: Session, k: nat) returns (j: nat)
    requires s.attempt.Opened? && GoodLog(s.log) && k <= |s.log|
    requires Flatten(s.attempt.chunks) <= Wire(s.frames) && Entries(s.frames) == s.log[k..]
    ensures k + j <= |s.log|
    ensures Uncut(s) ==> k + j == |s.log|
    ensures var r := Turn(parse, c, s.attempt);
      r.blocks == c.blocks + BlocksOf(s.log[k..k + j])
      && r.lastEventId == if j == 0 then c.lastEventId else Some(s.log[k + j - 1].id)
  {
    hide Run, Feed, Wire, Entries, BlocksOf;
    var text := Flatten(s.attempt.chunks);
    var p := Parse(c.lastEventId, None, None, c.calls + [OnConnected, OnStatus(Live)], c.blocks);
    ChunkIndependence(parse, p, "", s.attempt.chunks);
    assert "" + text == text;
    j := CutWireDispatches(parse, p, s.frames, text);
    assert s.log[k..][..j] == s.log[k..k + j];
  }

  lemma DeliveredStays(c: Client, log: seq<Entry>, longer: seq<Entry>, from: nat, to: nat)
    requires Delivered(c, log, from, to) && log <= longer
    ensures to <= |longer| && Delivered(c, longer, from, to)
  {
    assert longer[from..to] == log[from..to];
  }

  lemma DeliveredSame(c: Client, r: Client, log: seq<Entry>, from: nat, to: nat)
    requires Delivered(c, log, from, to) && r.blocks == c.blocks && r.lastEventId == c.lastEventId
    ensures Delivered(r, log, from, to)
  {
  }

  /** Dispatched entries extend the stretch at its end, or start it. */
  lemma StretchGrows(c: Client, r: Client, log: seq<Entry>, from: nat, to: nat, k: nat, j: nat)
    requires Delivered(c, log, from, to) && k + j <= |log| && (from < to ==> k == to)
    requires r.blocks == c.blocks + BlocksOf(log[k..k + j])
    requires r.lastEventId == if j == 0 then c.lastEventId else Some(log[k + j - 1].id)
    ensures if from < to then Delivered(r, log, from, to + j) else Delivered(r, log, k, k + j)
  {
    if from < to {
      assert log[from..to + j] == log[from..to] + log[k..k + j];
      assert BlocksOf(log[from..to + j]) == BlocksOf(log[from..to]) + BlocksOf(log[k..k + j]);
    } else {
      assert BlocksOf(log[from..to]) == [];
    }
  }

  lemma UniqueIndex(log: seq<Entry>, i: nat, j: nat)
    requires UniqueIds(log) && i < |log| && j < |log|
    ensures log[i].id == log[j].id ==> i == j
  {
  }

  lemma ResumePoint(c: Client, s: Session, from: nat, to: nat, k: nat)
    requires GoodLog(s.log) && Delivered(c, s.log, from, to) && ResumesAt(s, c.lastEventId, k)
    ensures from < to ==> k == to
    ensures from == to ==> k == s.start
  {
    if from < to {
      UniqueIndex(s.log, to - 1, k - 1);
    }
  }

  lemma {:induction false} SessionDelivers(parse: JsonParse, c: Client, s: Session, log: seq<Entry>, from: nat, to: nat)
    returns (from': nat, to': nat)
    requires !c.closed && log <= s.log && GoodLog(s.log) && Serves(s, c.lastEventId) && Delivered(c, log, from, to)
    ensures Delivered(Turn(parse, c, s.attempt), s.log, from', to')
    ensures from < to ==> from' == from && to <= to'
    ensures from == to ==> (from' == from && to' == to) || (from' == s.start && s.attempt.Opened?)
    ensures Uncut(s) ==> to' == |s.log|
  {
    hide Turn, GoodLog, BlocksOf, Wire, Entries, Delivered;
    from', to' := from, to;
    DeliveredStays(c, log, s.log, from, to);
    if s.attempt.Opened? {
      var k: nat :| ResumesAt(s, c.lastEventId, k) && Entries(s.frames) == s.log[k..];
      ResumePoint(c, s, from, to, k);
      var j := ConnectionDispatches(parse, c, s, k);
      StretchGrows(c, Turn(parse, c, s.attempt), s.log, from, to, k, j);
      if from < to { to' := to + j; } else { from', to' := k, k + j; }
    } else {
      UnopenedQuiet(parse, c, s.attempt);
      DeliveredSame(c, Turn(parse, c, s.attempt), s.log, from, to);
    }
  }

  /** The server's log at the last connection the run reaches. */
  ghost function LastLog(parse: JsonParse, c: Client, ss: seq<Session>, log: seq<Entry>): seq<Entry>
    decreases |ss|
  {
    if ss == [] || c.closed then log else LastLog(parse, Turn(parse, c, ss[0].attempt), ss[1..], ss[0].log)
  }

  /** The run reaches its last connection, and nothing of that one is cut. */
  predicate EndsUncut(parse: JsonParse, c: Client, ss: seq<Session>)
    decreases |ss|
  {
    ss != [] && !c.closed &&
    (if |ss| == 1 then Uncut(ss[0]) else EndsUncut(parse, Turn(parse, c, ss[0].attempt), ss[1..]))
  }

  /** Every run: the dispatched blocks are a gapless, repeat-free stretch of the server's log, growing at its end,
      and they reach the end of that log when the last connection is not cut. */
  lemma {:induction false} RunDelivers(parse: JsonParse, c: Client, ss: seq<Session>, log: seq<Entry>, from: nat,
                                       to: nat)
    returns (last: seq<Entry>, from': nat, to': nat)
    requires ServedRun(parse, c, ss, log) && Delivered(c, log, from, to)
    ensures last == LastLog(parse, c, ss, log) && log <= last && (GoodLog(log) ==> GoodLog(last))
    ensures Delivered(AfterSessions(parse, c, ss), last, from', to')
    ensures from < to ==> from' == from && to <= to'
    ensures from' == from || exists i :: 0 <= i < |ss| && ss[i].attempt.Opened? && from' == ss[i].start
    ensures from == to && from' < to' ==> exists i :: 0 <= i < |ss| && ss[i].attempt.Opened? && from' == ss[i].start
    ensures EndsUncut(parse, c, ss) ==> to' == |last|
    decreases |ss|
  {
    hide Turn, GoodLog, Uncut;
    if ss == [] || c.closed {
      last, from', to' := log, from, to;
    } else {
      var f, t := SessionDelivers(parse, c, ss[0], log, from, to);
      last, from', to' := RunDelivers(parse, Turn(parse, c, ss[0].attempt), ss[1..], ss[0].log, f, t);
      if i :| 0 <= i < |ss[1..]| && ss[1..][i].attempt.Opened? && from' == ss[1..][i].start {
        assert ss[i + 1] == ss[1..][i];
      } else if from == to && from' < to' {
        assert f == from';
      }
      assert |ss| == 1 ==> ss[1..] == [];
    }
  }

  // ---------- onEvent sees the valid ones ----------

  function EventsOf(calls: seq<Call>): seq<Call> {
    if calls == [] then []
    else
      var c := calls[|calls| - 1];
      EventsOf(calls[..|calls| - 1]) + (if c.OnEvent? then [c] else [])
  }

  function ValidEvents(parse: JsonParse, blocks: seq<Block>): seq<Call> {
    if blocks == [] then []
    else ValidEvents(parse, blocks[..|blocks| - 1]) + EventCalls(parse, blocks[|blocks| - 1])
  }

  lemma EventsOfSnoc(calls: seq<Call>, c: Call)
    ensures EventsOf(calls + [c]) == EventsOf(calls) + (if c.OnEvent? then [c] else [])
  {
    assert (calls + [c])[..|calls|] == calls;
  }

  lemma DispatchKeepsEvents(parse: JsonParse, s: Parse)
    requires EventsOf(s.calls) == ValidEvents(parse, s.blocks)
    ensures var r := Dispatch(parse, s); EventsOf(r.calls) == ValidEvents(parse, r.blocks)
  {
    if s.data.Some? {
      var b := Block(s.eventId, s.data.value);
      var e := EventCalls(parse, b);
      assert (s.blocks + [b])[..|s.blocks|] == s.blocks;
      if e == [] {
        assert s.calls + e == s.calls;
      } else {
        EventsOfSnoc(s.calls, e[0]);
      }
    }
  }

  lemma LineKeepsEvents(parse: JsonParse, s: Parse, l: string)
    requires EventsOf(s.calls) == ValidEvents(parse, s.blocks)
    ensures var r := Line(parse, s, l); EventsOf(r.calls) == ValidEvents(parse, r.blocks)
  {
    hide EventsOf, ValidEvents, Dispatch, ParseSseLine;
    EventsOfSnoc(s.calls, OnHeartbeat);
    DispatchKeepsEvents(parse, s);
  }

  lemma {:induction false} RunKeepsEvents(parse: JsonParse, s: Parse, t: string)
    requires EventsOf(s.calls) == ValidEvents(parse, s.blocks)
    ensures var r := Run(parse, s, t).0; EventsOf(r.calls) == ValidEvents(parse, r.blocks)
    decreases |t|
  {
    var i := IndexOf(t, '\n');
    if i < |t| {
      LineKeepsEvents(parse, s, t[..i]);
      RunKeepsEvents(parse, Line(parse, s, t[..i]), t[i + 1..]);
    }
  }

  lemma TwoMoreCalls(calls: seq<Call>, x: Call, y: Call)
    requires !x.OnEvent? && !y.OnEvent?
    ensures EventsOf(calls + [x, y]) == EventsOf(calls)
  {
    EventsOfSnoc(calls, x);
    EventsOfSnoc(calls + [x], y);
    assert calls + [x, y] == calls + [x] + [y];
  }

  lemma ConnectKeepsEvents(parse: JsonParse, c: Client, a: Attempt)
    requires EventsOf(c.calls) == ValidEvents(parse, c.blocks)
    ensures var r := Connect(parse, c, a).0; EventsOf(r.calls) == ValidEvents(parse, r.blocks)
  {
    hide Run, Feed;
    if a.Opened? {
      TwoMoreCalls(c.calls, OnConnected, OnStatus(Live));
      var p := Parse(c.lastEventId, None, None, c.calls + [OnConnected, OnStatus(Live)], c.blocks);
      ChunkIndependence(parse, p, "", a.chunks);
      RunKeepsEvents(parse, p, "" + Flatten(a.chunks));
    }
  }

  lemma TurnKeepsEvents(parse: JsonParse, c: Client, a: Attempt)
    requires EventsOf(c.calls) == ValidEvents(parse, c.blocks)
    ensures var r := Turn(parse, c, a); EventsOf(r.calls) == ValidEvents(parse, r.blocks)
  {
    ConnectKeepsEvents(parse, c, a);
    hide Connect, EventsOf;
    var c' := Connect(parse, c, a).0;
    EventsOfSnoc(c'.calls, OnStatus(Disconnected));
    TwoMoreCalls(c'.calls, OnStatus(Reconnecting), Sleep(ReconnectDelay(c'.attempt)));
  }

  /** Over every run, onEvent is called for exactly the dispatched blocks with valid JSON, in order. */
  lemma {:induction false} OnEventSeesValidBlocks(parse: JsonParse, c: Client, script: seq<Attempt>)
    requires EventsOf(c.calls) == ValidEvents(parse, c.blocks)
    ensures var r := RunLoop(parse, c, script); EventsOf(r.calls) == ValidEvents(parse, r.blocks)
    decreases |script|
  {
    hide Turn;
    if script != [] && !c.closed {
      TurnKeepsEvents(parse, c, script[0]);
      OnEventSeesValidBlocks(parse, Turn(parse, c, script[0]), script[1..]);
    }
  }

  // ---------- what a client sees ----------

  /** A fresh client, over every run: the dispatched blocks are one stretch of the server's log that starts where an
      opened connection started, and onEvent was called for exactly its members with valid JSON, in order. */
  lemma {:induction false} FreshRunSees(parse: JsonParse, ss: seq<Session>)
    returns (log: seq<Entry>, from: nat, to: nat)
    requires ServedRun(parse, FRESH, ss, [])
    ensures log == LastLog(parse, FRESH, ss, []) && GoodLog(log) && from <= to <= |log|
    ensures from == 0 || exists i :: 0 <= i < |ss| && ss[i].attempt.Opened? && from == ss[i].start
    ensures from < to ==> exists i :: 0 <= i < |ss| && ss[i].attempt.Opened? && from == ss[i].start
    ensures EndsUncut(parse, FRESH, ss) ==> to == |log|
    ensures var r := RunLoop(parse, FRESH, Attempts(ss));
      r.blocks == BlocksOf(log[from..to]) && EventsOf(r.calls) == ValidEvents(parse, BlocksOf(log[from..to]))
  {
    hide RunLoop, AfterSessions, ServedRun, EndsUncut;
    log, from, to := RunDelivers(parse, FRESH, ss, [], 0, 0);
    SessionsAreRuns(parse, FRESH, ss);
    OnEventSeesValidBlocks(parse, FRESH, Attempts(ss));
  }

  /** With a server that replays from the beginning when Last-Event-ID is absent, a fresh client has dispatched
      exactly a prefix of the server's log, and onEvent saw exactly the valid members of that prefix. */
  lemma {:induction false} ReplayDeliversPrefix(parse: JsonParse, ss: seq<Session>) returns (log: seq<Entry>, to: nat)
    requires ServedRun(parse, FRESH, ss, [])
    requires forall i | 0 <= i < |ss| :: ss[i].start == 0
    ensures log == LastLog(parse, FRESH, ss, []) && GoodLog(log) && to <= |log|
    ensures EndsUncut(parse, FRESH, ss) ==> to == |log|
    ensures var r := RunLoop(parse, FRESH, Attempts(ss));
      r.blocks == BlocksOf(log[..to]) && EventsOf(r.calls) == ValidEvents(parse, BlocksOf(log[..to]))
  {
    hide RunLoop, ServedRun, EndsUncut, GoodLog, ValidEvents, EventsOf;
    var from;
    log, from, to := FreshRunSees(parse, ss);
    assert log[from..to] == log[..to];
  }

  /** A field that is literally named comment reads as a comment line. */
  lemma {:induction false} CommentFieldIsComment(parse: JsonParse, s: Parse, value: string)
    requires OneLine(value)
    ensures Line(parse, s, "comment:" + value) == Line(parse, s, ":" + value)
  {
    hide ParseSseLine;
    SameField(value);
    var named, plain := "comment:" + value, ":" + value;
    assert value != "" ==> named[|named| - 1] == plain[|plain| - 1] == value[|value| - 1];
    assert value == "" ==> named[|named| - 1] == plain[|plain| - 1] == ':';
  }

  lemma SameField(value: string)
    ensures ParseSseLine("comment:" + value) == ParseSseLine(":" + value)
  {
    var named := "comment:" + value;
    assert named[7] == ':' && named[..7] == "comment" && named[8..] == value;
    assert forall k | 0 <= k < 7 :: named[k] == "comment"[k];
  }

  /** A multi-line event loses all but its last data line: this client is not a full event-stream reader. */
  lemma {:induction false} LaterDataOverwrites(parse: JsonParse, s: Parse, a: string, b: string)
    requires OneLine(a) && OneLine(b)
    ensures Line(parse, Line(parse, s, "data: " + a), "data: " + b) == Line(parse, s, "data: " + b)
  {
    DataLine(parse, s, a);
    DataLine(parse, s.(data := Some(a)), b);
    DataLine(parse, s, b);
  }
}
