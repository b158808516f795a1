/**
 * The handshake that verifies an installed server: `initialize`, then `tools/list`, over the lines of a
 * child's standard output (MCP 2024-11-05, Lifecycle: Initialization). When it settles, on what, and
 * that how the output was cut into chunks does not matter.
 */
module McpHandshake {
  import opened Wrappers

  /** A reply as far as the handshake looks: `initialize` and `tools` say what its result would be usable for. */
  datatype Message = Message(id: Option<int>, error: bool, initialize: bool, tools: Option<seq<string>>)

  datatype Outcome = Outcome(ok: bool, stage: string)

  /** Line trimming, the JSON-RPC parser, and whether writing the second request throws. */
  datatype Peer = Peer(trim: string -> string, parse: string -> Option<Message>, writeFails: bool)

  datatype Session = Session(
    settled: Option<Outcome>,
    stage: string,
    lineBuf: string,
    initializeResult: Option<Message>,
    toolsListResult: Option<Message>)

  datatype Event = Data(text: string) | Close | ProcessError | Timeout | StdinError

  // ----- the handlers, on values

  /** The first outcome stands. */
  function Finish(s: Session, outcome: Outcome): Session {
    if s.settled.Some? then s else s.(settled := Some(outcome))
  }

  function HandleMessage(p: Peer, s: Session, msg: Message): Session {
    if msg.id == Some(1) then
      if msg.error then Finish(s, Outcome(false, "initialize"))
      else if s.initializeResult.Some? || !msg.initialize then s
      else
        var next := s.(initializeResult := Some(msg), stage := "tools/list");
        if p.writeFails then Finish(next, Outcome(false, "write-tools-list")) else next
    else if msg.id == Some(2) then
      if msg.error then Finish(s, Outcome(false, "tools/list"))
      else if s.initializeResult.None? || s.toolsListResult.Some? || msg.tools.None? then s
      else Finish(s.(toolsListResult := Some(msg)), Outcome(true, "complete"))
    else s
  }

  function HandleLine(p: Peer, s: Session, raw: string): Session {
    var line := p.trim(raw);
    if line == "" || s.settled.Some? || p.parse(line).None? then s else HandleMessage(p, s, p.parse(line).value)
  }

  function LineLength(s: string): (n: nat)
    ensures n <= |s| && '\n' !in s[..n] && (n < |s| ==> s[n] == '\n')
  {
    if s == "" || s[0] == '\n' then 0
    else
      var n := LineLength(s[1..]);
      assert s[..n + 1] == [s[0]] + s[1..][..n];
      n + 1
  }

  /** Every complete line of `buf` is handled; the rest waits. */
  function Drain(p: Peer, s: Session, buf: string): Session
    decreases |buf|
  {
    var n := LineLength(buf);
    if n < |buf| then Drain(p, HandleLine(p, s, buf[..n]), buf[n + 1..]) else s.(lineBuf := buf)
  }

  function Handle(p: Peer, s: Session, e: Event): Session {
    match e
    case Data(text) => Drain(p, s, s.lineBuf + text)
    case Close =>
      var flushed := HandleLine(p, s.(lineBuf := ""), s.lineBuf);
      Finish(flushed, Outcome(false, "child-exited-during-" + flushed.stage))
    case ProcessError => Finish(s, Outcome(false, "process-error"))
    case Timeout => Finish(s, Outcome(false, "timeout-during-" + s.stage))
    case StdinError => Finish(s, Outcome(false, "stdin-error-during-" + s.stage))
  }

  function Run(p: Peer, s: Session, events: seq<Event>): Session
    decreases |events|
  {
    if events == [] then s else Run(p, Handle(p, s, events[0]), events[1..])
  }

  /** After the child was spawned and the first request was written, or failed to be. */
  function Started(initializeFails: bool): Session {
    Session(if initializeFails then Some(Outcome(false, "write-initialize")) else None, "initialize", "", None, None)
  }

  // ----- it settles at most once

  lemma HandleLineKeepsOutcome(p: Peer, s: Session, raw: string)
    ensures s.settled.Some? ==> HandleLine(p, s, raw) == s
    ensures HandleLine(p, s, raw).lineBuf == s.lineBuf
  {
  }

  lemma {:induction false} DrainKeepsOutcome(p: Peer, s: Session, buf: string)
    requires s.settled.Some?
    ensures Drain(p, s, buf).settled == s.settled
    decreases |buf|
  {
    var n := LineLength(buf);
    if n < |buf| {
      HandleLineKeepsOutcome(p, s, buf[..n]);
      DrainKeepsOutcome(p, s, buf[n + 1..]);
    }
  }

  /** Whatever happens after it settled, the outcome stands. */
  lemma {:induction false} SettlesOnce(p: Peer, s: Session, events: seq<Event>)
    requires s.settled.Some?
    ensures Run(p, s, events).settled == s.settled
    decreases |events|
  {
    if events != [] {
      if events[0].Data? {
        DrainKeepsOutcome(p, s, s.lineBuf + events[0].text);
      }
      SettlesOnce(p, Handle(p, s, events[0]), events[1..]);
    }
  }

  // ----- chunks do not matter

  lemma {:induction false} LineLengthIs(line: string, rest: string)
    requires '\n' !in line && (rest == "" || rest[0] == '\n')
    ensures LineLength(line + rest) == |line|
    decreases |line|
  {
    if line == "" {
      assert line + rest == rest;
    } else {
      assert (line + rest)[1..] == line[1..] + rest;
      LineLengthIs(line[1..], rest);
    }
  }

  lemma DrainLine(p: Peer, s: Session, line: string, rest: string)
    requires '\n' !in line
    ensures Drain(p, s, line + ("\n" + rest)) == Drain(p, HandleLine(p, s, line), rest)
  {
    var buf := line + ("\n" + rest);
    LineLengthIs(line, "\n" + rest);
    assert buf[..|line|] == line && buf[|line| + 1..] == rest;
  }

  lemma DrainNothing(p: Peer, s: Session, line: string)
    requires '\n' !in line
    ensures Drain(p, s, line) == s.(lineBuf := line)
  {
    assert line + "" == line;
    LineLengthIs(line, "");
  }

  /** Draining some text, then what was left with more, is draining all of it. */
  lemma {:induction false} DrainInTwo(p: Peer, s: Session, a: string, b: string, mid: Session)
    requires mid == Drain(p, s, a)
    ensures Drain(p, mid, mid.lineBuf + b) == Drain(p, s, a + b)
    decreases |a|
  {
    var n := LineLength(a);
    if n < |a| {
      var line, rest := a[..n], a[n + 1..];
      SplitLine(a, line, rest, b);
      DrainLine(p, s, line, rest);
      DrainLine(p, s, line, rest + b);
      DrainInTwo(p, HandleLine(p, s, line), rest, b, mid);
    } else {
      assert a == a[..n];
      DrainNothing(p, s, a);
      DrainIgnoresBuffer(p, s, a + b, a);
    }
  }

  lemma SplitLine(a: string, line: string, rest: string, b: string)
    requires |line| < |a| && line == a[..|line|] && a[|line|] == '\n' && rest == a[|line| + 1..]
    ensures a == line + ("\n" + rest) && a + b == line + ("\n" + (rest + b))
  {
  }

  /** The old buffer is replaced, never read. */
  lemma {:induction false} DrainIgnoresBuffer(p: Peer, s: Session, buf: string, other: string)
    ensures Drain(p, s.(lineBuf := other), buf) == Drain(p, s, buf)
    decreases |buf|
  {
    var n := LineLength(buf);
    if n < |buf| {
      assert HandleLine(p, s.(lineBuf := other), buf[..n]) == HandleLine(p, s, buf[..n]).(lineBuf := other);
      DrainIgnoresBuffer(p, HandleLine(p, s, buf[..n]), buf[n + 1..], other);
    }
  }

  /** The events with each run of output between other events as one chunk; `text` is output not yet placed. */
  function Merged(text: string, events: seq<Event>): seq<Event>
    decreases |events|
  {
    if events == [] then [Data(text)]
    else if events[0].Data? then Merged(text + events[0].text, events[1..])
    else [Data(text), events[0]] + Merged("", events[1..])
  }

  lemma {:induction false} DrainLeavesNoBreak(p: Peer, s: Session, buf: string)
    ensures '\n' !in Drain(p, s, buf).lineBuf
    decreases |buf|
  {
    var n := LineLength(buf);
    if n < |buf| {
      DrainLeavesNoBreak(p, HandleLine(p, s, buf[..n]), buf[n + 1..]);
    } else {
      assert buf[..n] == buf;
    }
  }

  lemma NothingNew(p: Peer, s: Session)
    requires '\n' !in s.lineBuf
    ensures Handle(p, s, Data("")) == s
  {
    assert s.lineBuf + "" == s.lineBuf;
    LineLengthIs(s.lineBuf, "");
  }

  lemma TwoSteps(p: Peer, s: Session, first: Event, second: Event, rest: seq<Event>)
    ensures Run(p, s, [first, second] + rest) == Run(p, Handle(p, Handle(p, s, first), second), rest)
  {
    var all := [first, second] + rest;
    assert all[1..] == [second] + rest && all[1..][1..] == rest;
  }

  lemma {:induction false} RunMerged(p: Peer, s: Session, text: string, events: seq<Event>)
    ensures Run(p, Handle(p, s, Data(text)), events) == Run(p, s, Merged(text, events))
    decreases |events|
  {
    if events == [] {
      assert Merged(text, events)[1..] == [];
    } else {
      var e, rest := events[0], events[1..];
      if e.Data? {
        DrainInTwo(p, s, s.lineBuf + text, e.text, Handle(p, s, Data(text)));
        assert s.lineBuf + text + e.text == s.lineBuf + (text + e.text);
        RunMerged(p, s, text + e.text, rest);
      } else {
        var fed := Handle(p, s, Data(text));
        var s' := Handle(p, fed, e);
        DrainLeavesNoBreak(p, s, s.lineBuf + text);
        NothingNew(p, s');
        RunMerged(p, s', "", rest);
        TwoSteps(p, s, Data(text), e, Merged("", rest));
      }
    }
  }

  /** Two runs whose output differs only in how it was cut into chunks end alike. */
  lemma ChunkingDoesNotMatter(p: Peer, initializeFails: bool, events: seq<Event>, events': seq<Event>)
    requires Merged("", events) == Merged("", events')
    ensures Run(p, Started(initializeFails), events) == Run(p, Started(initializeFails), events')
  {
    var s := Started(initializeFails);
    NothingNew(p, s);
    RunMerged(p, s, "", events);
    RunMerged(p, s, "", events');
  }

  // ----- chunks of bytes

  /** What a chunk of bytes decodes to on its own, and which byte sequences end with a whole character. */
  datatype Decoder = Decoder(decode: seq<bv8> -> string, whole: seq<bv8> -> bool)

  /** Behind whole characters decoding starts afresh. */
  ghost predicate SoundDecoder(c: Decoder) {
    && c.decode([]) == "" && c.whole([])
    && (forall a, b :: c.whole(a) ==> c.decode(a + b) == c.decode(a) + c.decode(b))
    && forall a, b :: c.whole(a) && c.whole(b) ==> c.whole(a + b)
  }

  datatype Raw = Chunk(bytes: seq<bv8>) | Else(e: Event)

  /** Every chunk is decoded on its own. */
  function Decoded(c: Decoder, raw: seq<Raw>): seq<Event>
    decreases |raw|
  {
    if raw == [] then []
    else [if raw[0].Chunk? then Data(c.decode(raw[0].bytes)) else raw[0].e] + Decoded(c, raw[1..])
  }

  /** The bytes between other events as one chunk; `bytes` are not yet placed. */
  function Joined(bytes: seq<bv8>, raw: seq<Raw>): seq<Raw>
    decreases |raw|
  {
    if raw == [] then [Chunk(bytes)]
    else if raw[0].Chunk? then Joined(bytes + raw[0].bytes, raw[1..])
    else [Chunk(bytes), raw[0]] + Joined([], raw[1..])
  }

  ghost predicate CutsBetweenCharacters(c: Decoder, raw: seq<Raw>) {
    forall i :: 0 <= i < |raw| ==> if raw[i].Chunk? then c.whole(raw[i].bytes) else !raw[i].e.Data?
  }

  lemma {:induction false} MergedDecoded(c: Decoder, bytes: seq<bv8>, raw: seq<Raw>)
    requires SoundDecoder(c) && c.whole(bytes) && CutsBetweenCharacters(c, raw)
    ensures Merged(c.decode(bytes), Decoded(c, raw)) == Decoded(c, Joined(bytes, raw))
    decreases |raw|
  {
    if raw != [] {
      var rest := raw[1..];
      assert CutsBetweenCharacters(c, rest);
      assert Decoded(c, raw)[1..] == Decoded(c, rest);
      if raw[0].Chunk? {
        MergedDecoded(c, bytes + raw[0].bytes, rest);
      } else {
        MergedDecoded(c, [], rest);
        DecodedTwo(c, Chunk(bytes), raw[0], Joined([], rest));
      }
    }
  }

  lemma DecodedTwo(c: Decoder, first: Raw, second: Raw, rest: seq<Raw>)
    requires first.Chunk? && second.Else?
    ensures Decoded(c, [first, second] + rest) == [Data(c.decode(first.bytes)), second.e] + Decoded(c, rest)
  {
    var all := [first, second] + rest;
    assert all[1..] == [second] + rest && all[1..][1..] == rest;
  }

  /**
   * Bytes that arrive cut differently between the same other events, but never inside a character, end
   * the handshake alike. A character cut in two would be decoded as two texts, and is outside.
   */
  lemma ByteChunkingDoesNotMatter(p: Peer, c: Decoder, initializeFails: bool, raw: seq<Raw>, raw': seq<Raw>)
    requires SoundDecoder(c) && CutsBetweenCharacters(c, raw) && CutsBetweenCharacters(c, raw') && Joined([], raw) == Joined([], raw')
    ensures Run(p, Started(initializeFails), Decoded(c, raw)) == Run(p, Started(initializeFails), Decoded(c, raw'))
  {
    MergedDecoded(c, [], raw);
    MergedDecoded(c, [], raw');
    ChunkingDoesNotMatter(p, initializeFails, Decoded(c, raw), Decoded(c, raw'));
  }

  /**
   * The condition on the cuts is needed: bytes that decode otherwise in two pieces than in one can make
   * the difference between an error reply and none.
   */
  lemma CutCharacterCanMatter(c: Decoder, a: seq<bv8>, b: seq<bv8>) returns (p: Peer)
    requires c.decode(a) + c.decode(b) != c.decode(a + b) && c.decode(a + b) != ""
    requires '\n' !in c.decode(a) && '\n' !in c.decode(b) && '\n' !in c.decode(a + b)
    ensures var raw, raw' := [Chunk(a + b), Else(Close)], [Chunk(a), Chunk(b), Else(Close)];
      && Joined([], raw) == Joined([], raw')
      && Run(p, Started(false), Decoded(c, raw)).settled == Some(Outcome(false, "initialize"))
      && Run(p, Started(false), Decoded(c, raw')).settled == Some(Outcome(false, "child-exited-during-initialize"))
  {
    var whole, parts := c.decode(a + b), c.decode(a) + c.decode(b);
    p := Peer(text => text, text => if text == whole then Some(Message(Some(1), true, false, None)) else None, false);
    CutDecodes(c, a, b);
    MergedCut(c.decode(a), c.decode(b));
    ChunkingDoesNotMatter(p, false, [Data(c.decode(a)), Data(c.decode(b)), Close], [Data(parts), Close]);
    UnfinishedLine(p, whole, [Data(whole), Close]);
    UnfinishedLine(p, parts, [Data(parts), Close]);
    assert "child-exited-during-" + "initialize" == "child-exited-during-initialize";
  }

  lemma CutDecodes(c: Decoder, a: seq<bv8>, b: seq<bv8>)
    ensures var raw, raw' := [Chunk(a + b), Else(Close)], [Chunk(a), Chunk(b), Else(Close)];
      && Joined([], raw) == Joined([], raw')
      && Decoded(c, raw) == [Data(c.decode(a + b)), Close]
      && Decoded(c, raw') == [Data(c.decode(a)), Data(c.decode(b)), Close]
  {
    var raw, raw', close := [Chunk(a + b), Else(Close)], [Chunk(a), Chunk(b), Else(Close)], [Else(Close)];
    assert raw[1..] == close && raw'[1..] == [Chunk(b), Else(Close)] && raw'[1..][1..] == close && close[1..] == [];
    assert [] + (a + b) == a + b && [] + a == a;
  }

  lemma MergedCut(x: string, y: string)
    ensures Merged("", [Data(x), Data(y), Close]) == Merged("", [Data(x + y), Close])
  {
    var all := [Data(x), Data(y), Close];
    assert all[1..] == [Data(y), Close] && all[1..][1..] == [Close] && [Data(x + y), Close][1..] == [Close];
    assert "" + x + y == "" + (x + y);
  }

  /** Text without a line break is handed over at the close. */
  lemma UnfinishedLine(p: Peer, text: string, events: seq<Event>)
    requires '\n' !in text && events == [Data(text), Close]
    ensures Run(p, Started(false), events) == Handle(p, Started(false).(lineBuf := text), Close)
  {
    DrainNothing(p, Started(false), text);
    assert "" + text == text && events[1..] == [Close] && [Close][1..] == [];
  }

  // ----- when it succeeds

  /** What happens in a run, one complete line at a time. */
  datatype Happening = Line(raw: string) | Other(e: Event)

  function LinesOf(buf: string): seq<Happening>
    decreases |buf|
  {
    var n := LineLength(buf);
    if n < |buf| then [Line(buf[..n])] + LinesOf(buf[n + 1..]) else []
  }

  /** The unfinished last line. */
  function TailOf(buf: string): string
    decreases |buf|
  {
    var n := LineLength(buf);
    if n < |buf| then TailOf(buf[n + 1..]) else buf
  }

  /** A close first hands over the last line without a break. */
  function Brings(lineBuf: string, e: Event): seq<Happening> {
    match e
    case Data(text) => LinesOf(lineBuf + text)
    case Close => [Line(lineBuf), Other(Close)]
    case _ => [Other(e)]
  }

  function Leaves(lineBuf: string, e: Event): string {
    match e
    case Data(text) => TailOf(lineBuf + text)
    case Close => ""
    case _ => lineBuf
  }

  function Happenings(lineBuf: string, events: seq<Event>): seq<Happening>
    decreases |events|
  {
    if events == [] then [] else Brings(lineBuf, events[0]) + Happenings(Leaves(lineBuf, events[0]), events[1..])
  }

  function MessageOf(p: Peer, h: Happening): Option<Message> {
    if h.Other? || p.trim(h.raw) == "" then None else p.parse(p.trim(h.raw))
  }

  /** A usable `initialize` reply. */
  predicate Initializes(p: Peer, h: Happening) {
    var msg := MessageOf(p, h);
    msg.Some? && msg.value.id == Some(1) && !msg.value.error && msg.value.initialize
  }

  /** A usable `tools/list` reply. */
  predicate ListsTools(p: Peer, h: Happening) {
    var msg := MessageOf(p, h);
    msg.Some? && msg.value.id == Some(2) && !msg.value.error && msg.value.tools.Some?
  }

  /** What ends a handshake without success: an error reply to either request, or anything but output. */
  predicate Fails(p: Peer, h: Happening) {
    var msg := MessageOf(p, h);
    h.Other? || (msg.Some? && (msg.value.id == Some(1) || msg.value.id == Some(2)) && msg.value.error)
  }

  /** One happening. */
  function Meet(p: Peer, s: Session, h: Happening): Session {
    match h
    case Line(raw) => HandleLine(p, s, raw)
    case Other(e) => Finish(s, Outcome(false, ""))
  }

  function MeetAll(p: Peer, s: Session, hs: seq<Happening>): Session
    decreases |hs|
  {
    if hs == [] then s else MeetAll(p, Meet(p, s, hs[0]), hs[1..])
  }

  /** The same session but for its buffer and the name of the stage it failed in. */
  predicate Alike(s: Session, t: Session) {
    && s.initializeResult == t.initializeResult && s.toolsListResult == t.toolsListResult
    && (s.settled.Some? <==> t.settled.Some?) && (s.settled.Some? ==> s.settled.value.ok == t.settled.value.ok)
  }

  lemma MeetAlike(p: Peer, s: Session, t: Session, h: Happening)
    requires Alike(s, t)
    ensures Alike(Meet(p, s, h), Meet(p, t, h))
  {
  }

  lemma {:induction false} MeetAllAlike(p: Peer, s: Session, t: Session, hs: seq<Happening>)
    requires Alike(s, t)
    ensures Alike(MeetAll(p, s, hs), MeetAll(p, t, hs))
    decreases |hs|
  {
    if hs != [] {
      MeetAlike(p, s, t, hs[0]);
      MeetAllAlike(p, Meet(p, s, hs[0]), Meet(p, t, hs[0]), hs[1..]);
    }
  }

  lemma {:induction false} MeetAllConcat(p: Peer, s: Session, a: seq<Happening>, b: seq<Happening>)
    ensures MeetAll(p, s, a + b) == MeetAll(p, MeetAll(p, s, a), b)
    decreases |a|
  {
    if a == [] {
      assert a + b == b;
    } else {
      assert (a + b)[1..] == a[1..] + b;
      MeetAllConcat(p, Meet(p, s, a[0]), a[1..], b);
    }
  }

  lemma {:induction false} DrainMeets(p: Peer, s: Session, buf: string)
    ensures Drain(p, s, buf) == MeetAll(p, s, LinesOf(buf)).(lineBuf := TailOf(buf))
    decreases |buf|
  {
    var n := LineLength(buf);
    if n < |buf| {
      DrainMeets(p, HandleLine(p, s, buf[..n]), buf[n + 1..]);
      assert LinesOf(buf)[1..] == LinesOf(buf[n + 1..]);
    }
  }

  lemma HandleMeets(p: Peer, s: Session, e: Event)
    ensures Alike(Handle(p, s, e), MeetAll(p, s, Brings(s.lineBuf, e)))
    ensures Handle(p, s, e).lineBuf == Leaves(s.lineBuf, e)
  {
    match e
    case Data(text) => DrainMeets(p, s, s.lineBuf + text);
    case Close => CloseMeets(p, s);
    case _ => MeetOne(p, s, Other(e));
  }

  lemma MeetOne(p: Peer, s: Session, h: Happening)
    ensures MeetAll(p, s, [h]) == Meet(p, s, h)
  {
    assert [h][1..] == [];
  }

  lemma CloseMeets(p: Peer, s: Session)
    ensures Alike(Handle(p, s, Close), MeetAll(p, s, [Line(s.lineBuf), Other(Close)]))
    ensures Handle(p, s, Close).lineBuf == ""
  {
    var line := Line(s.lineBuf);
    MeetAllConcat(p, s, [line], [Other(Close)]);
    MeetOne(p, s, line);
    MeetOne(p, Meet(p, s, line), Other(Close));
    assert [line] + [Other(Close)] == [line, Other(Close)];
    HandleLineKeepsOutcome(p, s.(lineBuf := ""), s.lineBuf);
    MeetAlike(p, s, s.(lineBuf := ""), line);
  }

  /** A run is its happenings, met one after another. */
  lemma {:induction false} RunMeets(p: Peer, s: Session, events: seq<Event>)
    ensures Alike(Run(p, s, events), MeetAll(p, s, Happenings(s.lineBuf, events)))
    decreases |events|
  {
    if events != [] {
      var e, rest := events[0], events[1..];
      var brings, later := Brings(s.lineBuf, e), Happenings(Leaves(s.lineBuf, e), rest);
      HandleMeets(p, s, e);
      RunMeets(p, Handle(p, s, e), rest);
      MeetAllConcat(p, s, brings, later);
      MeetAllAlike(p, Handle(p, s, e), MeetAll(p, s, brings), later);
    }
  }

  /** Before happening `j`, a usable tools/list reply: a usable initialize reply, and nothing that ends the handshake. */
  ghost predicate SucceedsAt(p: Peer, hs: seq<Happening>, j: int) {
    && 0 <= j < |hs| && ListsTools(p, hs[j]) && !p.writeFails
    && (exists i :: 0 <= i < j && Initializes(p, hs[i]))
    && forall k :: 0 <= k < j ==> !Fails(p, hs[k])
  }

  /** With the first reply in and nothing settled: success comes with the next usable tools/list reply, if nothing fails first. */
  ghost predicate ListsAt(p: Peer, hs: seq<Happening>, j: int) {
    0 <= j < |hs| && ListsTools(p, hs[j]) && forall k :: 0 <= k < j ==> !Fails(p, hs[k])
  }

  ghost predicate IsOk(s: Session) {
    s.settled.Some? && s.settled.value.ok
  }

  lemma {:induction false} SettledStays(p: Peer, s: Session, hs: seq<Happening>)
    requires s.settled.Some?
    ensures IsOk(MeetAll(p, s, hs)) <==> IsOk(s)
    decreases |hs|
  {
    if hs != [] {
      SettledStays(p, Meet(p, s, hs[0]), hs[1..]);
    }
  }

  lemma {:induction false} OkAfterInitialize(p: Peer, s: Session, hs: seq<Happening>)
    requires s.settled.None? && s.initializeResult.Some? && s.toolsListResult.None?
    ensures IsOk(MeetAll(p, s, hs)) <==> exists j :: ListsAt(p, hs, j)
    decreases |hs|
  {
    if hs != [] {
      var h, rest, s' := hs[0], hs[1..], Meet(p, s, hs[0]);
      if Fails(p, h) {
        SettledStays(p, s', rest);
        assert forall j :: ListsAt(p, hs, j) ==> j == 0;
      } else if ListsTools(p, h) {
        SettledStays(p, s', rest);
        assert ListsAt(p, hs, 0);
      } else {
        OkAfterInitialize(p, s', rest);
        ShiftLists(p, hs);
      }
    }
  }

  lemma ShiftLists(p: Peer, hs: seq<Happening>)
    requires hs != [] && !Fails(p, hs[0]) && !ListsTools(p, hs[0])
    ensures (exists j :: ListsAt(p, hs, j)) <==> exists j :: ListsAt(p, hs[1..], j)
  {
    if j :| ListsAt(p, hs, j) {
      assert ListsAt(p, hs[1..], j - 1);
    }
    if j :| ListsAt(p, hs[1..], j) {
      assert ListsAt(p, hs, j + 1);
    }
  }

  lemma {:induction false} OkBeforeInitialize(p: Peer, s: Session, hs: seq<Happening>)
    requires s.settled.None? && s.initializeResult.None? && s.toolsListResult.None?
    ensures IsOk(MeetAll(p, s, hs)) <==> exists j :: SucceedsAt(p, hs, j)
    decreases |hs|
  {
    if hs != [] {
      var h, rest, s' := hs[0], hs[1..], Meet(p, s, hs[0]);
      if Fails(p, h) {
        SettledStays(p, s', rest);
        assert forall j :: !SucceedsAt(p, hs, j);
      } else if Initializes(p, h) {
        FirstReply(p, hs);
        if p.writeFails {
          SettledStays(p, s', rest);
        } else {
          OkAfterInitialize(p, s', rest);
        }
      } else {
        OkBeforeInitialize(p, s', rest);
        ShiftSucceeds(p, hs);
      }
    }
  }

  lemma FirstReply(p: Peer, hs: seq<Happening>)
    requires hs != [] && !Fails(p, hs[0]) && Initializes(p, hs[0])
    ensures (exists j :: SucceedsAt(p, hs, j)) <==> !p.writeFails && exists j :: ListsAt(p, hs[1..], j)
  {
    if j :| SucceedsAt(p, hs, j) {
      assert ListsAt(p, hs[1..], j - 1);
    }
    if !p.writeFails {
      if j :| ListsAt(p, hs[1..], j) {
        assert SucceedsAt(p, hs, j + 1);
      }
    }
  }

  lemma ShiftSucceeds(p: Peer, hs: seq<Happening>)
    requires hs != [] && !Fails(p, hs[0]) && !Initializes(p, hs[0])
    ensures (exists j :: SucceedsAt(p, hs, j)) <==> exists j :: SucceedsAt(p, hs[1..], j)
  {
    if j :| SucceedsAt(p, hs, j) {
      assert SucceedsAt(p, hs[1..], j - 1);
    }
    if j :| SucceedsAt(p, hs[1..], j) {
      assert SucceedsAt(p, hs, j + 1);
    }
  }

  /**
   * The handshake succeeds exactly when a usable initialize reply precedes a usable tools/list reply
   * and nothing before that reply ended it: no error reply, no other event, no failed write.
   */
  lemma OkIff(p: Peer, initializeFails: bool, events: seq<Event>)
    ensures IsOk(Run(p, Started(initializeFails), events)) <==>
      !initializeFails && exists j :: SucceedsAt(p, Happenings("", events), j)
  {
    OkIffFrom(p, Started(initializeFails), events, Happenings("", events));
  }

  lemma OkIffFrom(p: Peer, s: Session, events: seq<Event>, hs: seq<Happening>)
    requires hs == Happenings(s.lineBuf, events) && s.initializeResult.None? && s.toolsListResult.None?
    ensures s.settled.Some? ==> (IsOk(Run(p, s, events)) <==> IsOk(s))
    ensures s.settled.None? ==> (IsOk(Run(p, s, events)) <==> exists j :: SucceedsAt(p, hs, j))
  {
    RunMeets(p, s, events);
    var met := MeetAll(p, s, hs);
    assert IsOk(Run(p, s, events)) <==> IsOk(met);
    if s.settled.Some? {
      SettledStays(p, s, hs);
    } else {
      OkBeforeInitialize(p, s, hs);
    }
  }

  // ----- what a failure is reported as

  /** The stage tells whether the first reply is in. */
  predicate StageIsRight(s: Session) {
    s.stage == if s.initializeResult.Some? then "tools/list" else "initialize"
  }

  lemma LineKeepsStage(p: Peer, s: Session, raw: string)
    requires StageIsRight(s)
    ensures StageIsRight(HandleLine(p, s, raw))
  {
  }

  lemma {:induction false} DrainKeepsStage(p: Peer, s: Session, buf: string)
    requires StageIsRight(s)
    ensures StageIsRight(Drain(p, s, buf))
    decreases |buf|
  {
    var n := LineLength(buf);
    if n < |buf| {
      LineKeepsStage(p, s, buf[..n]);
      DrainKeepsStage(p, HandleLine(p, s, buf[..n]), buf[n + 1..]);
    }
  }

  lemma {:induction false} RunKeepsStage(p: Peer, s: Session, events: seq<Event>)
    requires StageIsRight(s)
    ensures StageIsRight(Run(p, s, events))
    decreases |events|
  {
    if events != [] {
      if events[0].Data? {
        DrainKeepsStage(p, s, s.lineBuf + events[0].text);
      } else if events[0].Close? {
        LineKeepsStage(p, s.(lineBuf := ""), s.lineBuf);
      }
      RunKeepsStage(p, Handle(p, s, events[0]), events[1..]);
    }
  }

  /** A usable initialize reply comes. */
  ghost predicate SomeInitializes(p: Peer, hs: seq<Happening>) {
    exists i :: 0 <= i < |hs| && Initializes(p, hs[i])
  }

  lemma {:induction false} InitializedBy(p: Peer, s: Session, hs: seq<Happening>)
    requires MeetAll(p, s, hs).settled.None?
    ensures s.settled.None?
    ensures MeetAll(p, s, hs).initializeResult.Some? <==> s.initializeResult.Some? || SomeInitializes(p, hs)
    decreases |hs|
  {
    if hs != [] {
      InitializedBy(p, Meet(p, s, hs[0]), hs[1..]);
      FirstOrLater(p, hs);
    }
  }

  lemma FirstOrLater(p: Peer, hs: seq<Happening>)
    requires hs != []
    ensures SomeInitializes(p, hs) <==> Initializes(p, hs[0]) || SomeInitializes(p, hs[1..])
  {
    if i :| 0 <= i < |hs| && Initializes(p, hs[i]) {
      assert i > 0 ==> Initializes(p, hs[1..][i - 1]);
    }
    if i :| 0 <= i < |hs[1..]| && Initializes(p, hs[1..][i]) {
      assert Initializes(p, hs[i + 1]);
    }
  }

  /**
   * After any run that has not settled, a failure is reported with its kind and the stage: the second one exactly
   * when a usable initialize reply has come. A close is a failure too, unless the unfinished last line settles it.
   */
  lemma FailuresAreNamed(p: Peer, events: seq<Event>)
    requires Run(p, Started(false), events).settled.None?
    ensures var s, initialized := Run(p, Started(false), events), SomeInitializes(p, Happenings("", events));
      var tail := HandleLine(p, s.(lineBuf := ""), s.lineBuf);
      && s.stage == (if initialized then "tools/list" else "initialize")
      && Handle(p, s, Timeout).settled == Some(Outcome(false, "timeout-during-" + s.stage))
      && Handle(p, s, StdinError).settled == Some(Outcome(false, "stdin-error-during-" + s.stage))
      && Handle(p, s, ProcessError).settled == Some(Outcome(false, "process-error"))
      && Handle(p, s, Close).settled
         == (if tail.settled.Some? then tail.settled else Some(Outcome(false, "child-exited-during-" + tail.stage)))
      && tail.stage == (if initialized || Initializes(p, Line(s.lineBuf)) then "tools/list" else "initialize")
  {
    var s, hs := Run(p, Started(false), events), Happenings("", events);
    RunKeepsStage(p, Started(false), events);
    RunMeets(p, Started(false), events);
    assert Alike(s, MeetAll(p, Started(false), hs));
    InitializedBy(p, Started(false), hs);
    assert s.initializeResult.Some? <==> SomeInitializes(p, hs);
    FlushNamesStage(p, s);
  }

  lemma FlushNamesStage(p: Peer, s: Session)
    requires s.settled.None? && StageIsRight(s)
    ensures var tail := HandleLine(p, s.(lineBuf := ""), s.lineBuf);
      && Handle(p, s, Close).settled
         == (if tail.settled.Some? then tail.settled else Some(Outcome(false, "child-exited-during-" + tail.stage)))
      && tail.stage == (if s.initializeResult.Some? || Initializes(p, Line(s.lineBuf)) then "tools/list" else "initialize")
  {
    LineKeepsStage(p, s.(lineBuf := ""), s.lineBuf);
  }

  /**
   * What one reply does before anything settled: an error reply fails in the stage it answers; the first usable
   * initialize reply is taken, and fails if the second request cannot be written; a usable tools/list reply
   * behind it succeeds; every other line changes nothing.
   */
  lemma RepliesDecide(p: Peer, s: Session, raw: string)
    requires s.settled.None? && s.toolsListResult.None?
    ensures var msg, after := p.parse(p.trim(raw)), HandleLine(p, s, raw);
      if p.trim(raw) == "" || msg.None? then after == s
      else if msg.value.id == Some(1) && msg.value.error then after == s.(settled := Some(Outcome(false, "initialize")))
      else if msg.value.id == Some(2) && msg.value.error then after == s.(settled := Some(Outcome(false, "tools/list")))
      else if msg.value.id == Some(1) && msg.value.initialize && s.initializeResult.None? then
        after == s.(initializeResult := msg, stage := "tools/list",
                    settled := if p.writeFails then Some(Outcome(false, "write-tools-list")) else None)
      else if msg.value.id == Some(2) && msg.value.tools.Some? && s.initializeResult.Some? then
        after == s.(toolsListResult := msg, settled := Some(Outcome(true, "complete")))
      else after == s
  {
  }

  lemma DrainNext(p: Peer, s: Session, buf: string)
    requires LineLength(buf) < |buf|
    ensures var n := LineLength(buf);
      Drain(p, s, buf) == Drain(p, HandleLine(p, s.(lineBuf := buf[n + 1..]), buf[..n]), buf[n + 1..])
  {
    var n := LineLength(buf);
    var line, rest := buf[..n], buf[n + 1..];
    assert HandleLine(p, s.(lineBuf := rest), line) == HandleLine(p, s, line).(lineBuf := rest);
    DrainIgnoresBuffer(p, HandleLine(p, s, line), rest, rest);
  }

  // ----- the handlers, in place

  class Handshake {
    const peer: Peer
    var settled: Option<Outcome>
    var stage: string
    var lineBuf: string
    var initializeResult: Option<Message>
    var toolsListResult: Option<Message>

    ghost function State(): Session
      reads this
    {
      Session(settled, stage, lineBuf, initializeResult, toolsListResult)
    }

    constructor (p: Peer, initializeFails: bool)
      ensures peer == p && State() == Started(initializeFails)
    {
      peer, lineBuf, stage := p, "", "initialize";
      initializeResult, toolsListResult := None, None;
      settled := if initializeFails then Some(Outcome(false, "write-initialize")) else None;
    }

    method SettleWith(outcome: Outcome)
      modifies this`settled
      ensures State() == Finish(old(State()), outcome)
    {
      if settled.None? {
        settled := Some(outcome);
      }
    }

    method OnLine(raw: string)
      modifies this
      ensures State() == HandleLine(peer, old(State()), raw) && lineBuf == old(lineBuf)
    {
      var line := peer.trim(raw);
      if line == "" || settled.Some? {
        return;
      }
      var msg := peer.parse(line);
      if msg.None? {
        return;
      }
      if msg.value.id == Some(1) {
        if msg.value.error {
          SettleWith(Outcome(false, "initialize"));
          return;
        }
        if initializeResult.Some? || !msg.value.initialize {
          return;
        }
        initializeResult := msg;
        stage := "tools/list";
        if peer.writeFails {
          SettleWith(Outcome(false, "write-tools-list"));
        }
        return;
      }
      if msg.value.id == Some(2) {
        if msg.value.error {
          SettleWith(Outcome(false, "tools/list"));
          return;
        }
        if initializeResult.None? || toolsListResult.Some? || msg.value.tools.None? {
          return;
        }
        toolsListResult := msg;
        SettleWith(Outcome(true, "complete"));
      }
    }

    method IndexOfBreak() returns (idx: nat)
      ensures idx == LineLength(lineBuf)
    {
      idx := 0;
      while idx < |lineBuf| && lineBuf[idx] != '\n'
        invariant idx <= |lineBuf| && LineLength(lineBuf) == idx + LineLength(lineBuf[idx..])
      {
        assert lineBuf[idx..][1..] == lineBuf[idx + 1..];
        idx := idx + 1;
      }
    }

    method TakeLine(idx: nat)
      requires idx == LineLength(lineBuf) < |lineBuf|
      modifies this
      ensures |lineBuf| < |old(lineBuf)|
      ensures Drain(peer, State(), lineBuf) == Drain(peer, old(State()), old(lineBuf))
    {
      var line := lineBuf[..idx];
      DrainNext(peer, State(), lineBuf);
      lineBuf := lineBuf[idx + 1..];
      OnLine(line);
    }

    method OnData(text: string)
      modifies this
      ensures State() == Handle(peer, old(State()), Data(text))
    {
      ghost var s, all := State(), lineBuf + text;
      lineBuf := lineBuf + text;
      var idx := IndexOfBreak();
      DrainIgnoresBuffer(peer, s, lineBuf, lineBuf);
      while idx < |lineBuf|
        invariant idx == LineLength(lineBuf)
        invariant Drain(peer, State(), lineBuf) == Drain(peer, s, all)
        decreases |lineBuf|
      {
        TakeLine(idx);
        idx := IndexOfBreak();
      }
    }

    method OnClose()
      modifies this
      ensures State() == Handle(peer, old(State()), Close)
    {
      var tail := lineBuf;
      lineBuf := "";
      OnLine(tail);
      SettleWith(Outcome(false, "child-exited-during-" + stage));
    }

    method OnTimeout()
      modifies this
      ensures State() == Handle(peer, old(State()), Timeout)
    {
      SettleWith(Outcome(false, "timeout-during-" + stage));
    }

    method OnProcessError()
      modifies this
      ensures State() == Handle(peer, old(State()), ProcessError)
    {
      SettleWith(Outcome(false, "process-error"));
    }

    method OnStdinError()
      modifies this
      ensures State() == Handle(peer, old(State()), StdinError)
    {
      SettleWith(Outcome(false, "stdin-error-during-" + stage));
    }
  }
}
