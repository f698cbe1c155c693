/**
 The event-stream format of the WHATWG HTML Living Standard: the dashboard's writer, the decoder of sections 9.2.5
 "Parsing an event stream" and 9.2.6 "Interpreting an event stream", and the proof that the decoder undoes the writer.
 */
module EventStreams {
  const CR: char := '\r'
  const LF: char := '\n'
  const BOM: char := '\U{FEFF}'

  // ---- Decoder: lines (section 9.2.5) ----

  predicate IsBreak(c: char) { c == CR || c == LF }

  /** The position of the first line break, or the length when there is none. */
  function FirstBreak(s: string): (i: nat)
    ensures i <= |s| && (i < |s| ==> IsBreak(s[i])) && forall k :: 0 <= k < i ==> !IsBreak(s[k])
  {
    if s == "" || IsBreak(s[0]) then 0 else 1 + FirstBreak(s[1..])
  }

  /** The complete lines; a line ends at CR LF, at a lone LF or at a lone CR. An unfinished last line is left out. */
  function Lines(s: string): seq<string>
    decreases |s|
  {
    var i := FirstBreak(s);
    if i == |s| then []
    else if s[i] == CR && i + 1 < |s| && s[i + 1] == LF then [s[..i]] + Lines(s[i + 2..])
    else [s[..i]] + Lines(s[i + 1..])
  }

  // ---- Decoder: fields and dispatch (section 9.2.6) ----

  datatype Message = Message(event: string, data: string, lastEventId: string)

  /** The event type buffer, the data buffer, the last event ID buffer and the messages dispatched so far. */
  datatype Decoder = Decoder(event: string, data: string, id: string, sent: seq<Message>)

  function FirstColon(s: string): (i: nat)
    ensures i <= |s| && (i < |s| ==> s[i] == ':') && forall k :: 0 <= k < i ==> s[k] != ':'
  {
    if s == "" || s[0] == ':' then 0 else 1 + FirstColon(s[1..])
  }

  function Unspaced(value: string): string { if value != "" && value[0] == ' ' then value[1..] else value }

  function Field(d: Decoder, name: string, value: string): Decoder {
    if name == "event" then d.(event := value)
    else if name == "data" then d.(data := d.data + value + [LF])
    else if name == "id" && '\0' !in value then d.(id := value)
    else d
  }

  function Dispatch(d: Decoder): Decoder {
    if d.data == "" then d.(event := "")
    else
      var data := if d.data[|d.data| - 1] == LF then d.data[..|d.data| - 1] else d.data;
      Decoder("", "", d.id, d.sent + [Message(if d.event == "" then "message" else d.event, data, d.id)])
  }

  function Interpret(d: Decoder, line: string): Decoder {
    var i := FirstColon(line);
    if line == "" then Dispatch(d)
    else if i == 0 then d
    else if i < |line| then Field(d, line[..i], Unspaced(line[i + 1..]))
    else Field(d, line, "")
  }

  function InterpretAll(d: Decoder, lines: seq<string>): Decoder
    decreases |lines|
  {
    if lines == [] then d else InterpretAll(Interpret(d, lines[0]), lines[1..])
  }

  const Start := Decoder("", "", "", [])

  /** What a client dispatches; an event without its closing empty line is discarded. */
  function Decode(stream: string): seq<Message> {
    InterpretAll(Start, Lines(if stream != "" && stream[0] == BOM then stream[1..] else stream)).sent
  }

  // ---- Writer ----

  datatype Frame = Event(name: string, payload: string) | Heartbeat

  /** The pieces between line feeds; one more than there are line feeds. */
  function SplitLines(s: string): (r: seq<string>)
    ensures |r| > 0
    decreases |s|
  {
    if LF !in s then [s]
    else
      var i := FirstFeed(s);
      [s[..i]] + SplitLines(s[i + 1..])
  }

  function FirstFeed(s: string): (i: nat)
    requires LF in s
    ensures i < |s| && s[i] == LF && LF !in s[..i]
  {
    if s[0] == LF then 0 else 1 + FirstFeed(s[1..])
  }

  /** Each line followed by a line feed. */
  function Joined(lines: seq<string>): string {
    if lines == [] then "" else Joined(lines[..|lines| - 1]) + lines[|lines| - 1] + [LF]
  }

  function DataLines(lines: seq<string>): (r: seq<string>)
    ensures |r| == |lines| && forall i :: 0 <= i < |r| ==> r[i] == "data: " + lines[i]
  {
    seq(|lines|, i requires 0 <= i < |lines| => "data: " + lines[i])
  }

  function FrameLines(f: Frame): seq<string> {
    match f
    case Event(name, payload) => ["event: " + name] + DataLines(SplitLines(payload)) + [""]
    case Heartbeat => [": heartbeat", ""]
  }

  function Written(frames: seq<Frame>): string {
    if frames == [] then "" else Written(frames[..|frames| - 1]) + Joined(FrameLines(frames[|frames| - 1]))
  }

  class StreamWriter {
    var out: string
    ghost var frames: seq<Frame>
    ghost var lines: seq<string>

    ghost predicate Valid() reads this { out == Joined(lines) && lines == AllLines(frames) }

    constructor ()
      ensures Valid() && frames == []
    {
      out, frames, lines := "", [], [];
    }

    method WriteLine(line: string)
      modifies this`out, this`lines
      ensures old(out) == Joined(old(lines)) ==> out == Joined(lines)
      ensures lines == old(lines) + [line]
    {
      out := out + line + "\n";
      lines := lines + [line];
      assert lines[..|lines| - 1] == old(lines);
    }

    method WriteData(pieces: seq<string>)
      requires out == Joined(lines)
      modifies this`out, this`lines
      ensures out == Joined(lines) && lines == old(lines) + DataLines(pieces)
    {
      hide Joined;
      ghost var data := DataLines(pieces);
      for i := 0 to |pieces|
        invariant out == Joined(lines) && lines == old(lines) + data[..i]
      {
        WriteLine("data: " + pieces[i]);
      }
      assert data[..|pieces|] == data;
    }

    method WriteFrame(name: string, payload: string)
      requires Valid()
      modifies this
      ensures Valid() && frames == old(frames) + [Event(name, payload)] && out == Written(frames)
    {
      hide Joined, SplitLines, Written, AllLines, FrameLines;
      WriteLine("event: " + name);
      WriteData(SplitLines(payload));
      WriteLine("");
      EventLines(old(lines), name, payload);
      AllLinesAppend(frames, Event(name, payload));
      frames := frames + [Event(name, payload)];
      WrittenIsJoined(frames);
    }

    method WriteHeartbeat()
      requires Valid()
      modifies this
      ensures Valid() && frames == old(frames) + [Heartbeat] && out == Written(frames)
    {
      hide Joined, Written, AllLines;
      WriteLine(": heartbeat");
      WriteLine("");
      AllLinesAppend(frames, Heartbeat);
      frames := frames + [Heartbeat];
      WrittenIsJoined(frames);
    }
  }

  lemma JoinedOne(line: string)
    ensures Joined([line]) == line + [LF]
  {
  }

  // ---- Lines undo Joined ----

  predicate OneLine(s: string) { forall i :: 0 <= i < |s| ==> !IsBreak(s[i]) }

  lemma FirstBreakAt(s: string, i: nat)
    requires i < |s| && IsBreak(s[i]) && forall k :: 0 <= k < i ==> !IsBreak(s[k])
    ensures FirstBreak(s) == i
  {
  }

  lemma Regroup(a: string, b: string, c: string, d: string)
    ensures a + b + c + d == a + (b + c + d)
  {
  }

  lemma {:induction false} JoinedAppend(a: seq<string>, b: seq<string>)
    ensures Joined(a + b) == Joined(a) + Joined(b)
  {
    if b == [] {
      assert a + b == a;
    } else {
      var n := |b| - 1;
      JoinedAppend(a, b[..n]);
      assert (a + b)[..|a + b| - 1] == a + b[..n];
      Regroup(Joined(a), Joined(b[..n]), b[n], [LF]);
    }
  }

  lemma LinesFirst(line: string, rest: string)
    requires OneLine(line)
    ensures Lines(line + [LF] + rest) == [line] + Lines(rest)
  {
    var s := line + [LF] + rest;
    FirstBreakAt(s, |line|);
    assert s[..|line|] == line && s[|line| + 1..] == rest;
  }

  lemma {:induction false} LinesOfJoined(lines: seq<string>)
    requires forall i :: 0 <= i < |lines| ==> OneLine(lines[i])
    ensures Lines(Joined(lines)) == lines
  {
    hide Lines;
    if lines == [] {
      NoLines();
    } else {
      assert lines == [lines[0]] + lines[1..];
      JoinedAppend([lines[0]], lines[1..]);
      JoinedOne(lines[0]);
      LinesFirst(lines[0], Joined(lines[1..]));
      LinesOfJoined(lines[1..]);
    }
  }

  lemma NoLines()
    ensures Lines("") == []
  {
  }

  /** All the lines of the frames, in order. */
  function AllLines(frames: seq<Frame>): seq<string> {
    if frames == [] then [] else AllLines(frames[..|frames| - 1]) + FrameLines(frames[|frames| - 1])
  }

  lemma AllLinesAppend(frames: seq<Frame>, f: Frame)
    ensures AllLines(frames + [f]) == AllLines(frames) + FrameLines(f)
  {
  }

  lemma EventLines(before: seq<string>, name: string, payload: string)
    ensures before + ["event: " + name] + DataLines(SplitLines(payload)) + [""] == before + FrameLines(Event(name, payload))
  {
  }

  lemma {:induction false} WrittenIsJoined(frames: seq<Frame>)
    ensures Written(frames) == Joined(AllLines(frames))
  {
    hide FrameLines;
    if frames != [] {
      WrittenIsJoined(frames[..|frames| - 1]);
      JoinedAppend(AllLines(frames[..|frames| - 1]), FrameLines(frames[|frames| - 1]));
    }
  }

  // ---- Interpreting what was written ----

  /** The payload has no CR, and the event name neither CR nor LF. */
  predicate Clean(f: Frame) {
    f.Event? ==> CR !in f.payload && OneLine(f.name)
  }

  lemma {:induction false} SplitLinesJoin(s: string)
    ensures Joined(SplitLines(s)) == s + [LF]
    decreases |s|
  {
    if LF in s {
      var i := FirstFeed(s);
      var rest := SplitLines(s[i + 1..]);
      SplitLinesJoin(s[i + 1..]);
      JoinedAppend([s[..i]], rest);
      JoinedOne(s[..i]);
      assert s == s[..i] + [LF] + s[i + 1..];
    } else {
      JoinedOne(s);
    }
  }

  lemma ColonAt(name: string, rest: string)
    requires ':' !in name
    ensures FirstColon(name + ":" + rest) == |name|
  {
    var s := name + ":" + rest;
    assert s[|name|] == ':';
    forall k | 0 <= k < |name| ensures s[k] != ':' {
      assert s[k] == name[k];
    }
  }

  /** A line made of a field name, colon, space and value gives that field exactly that value. */
  lemma FieldLine(d: Decoder, name: string, value: string)
    requires name != "" && ':' !in name
    ensures Interpret(d, name + ": " + value) == Field(d, name, value)
  {
    hide FirstColon;
    var line := name + ": " + value;
    assert line == name + ":" + (" " + value);
    ColonAt(name, " " + value);
    assert line[..|name|] == name && line[|name| + 1..] == " " + value;
    assert (" " + value)[1..] == value;
  }

  lemma JoinedFirst(line: string, rest: seq<string>)
    ensures Joined([line] + rest) == line + [LF] + Joined(rest)
  {
    JoinedAppend([line], rest);
    JoinedOne(line);
  }

  lemma DataLineInterpreted(d: Decoder, value: string)
    ensures Interpret(d, "data: " + value) == d.(data := d.data + value + [LF])
  {
    hide Interpret;
    assert "data: " + value == "data" + ": " + value;
    FieldLine(d, "data", value);
  }

  lemma {:induction false} DataAccumulates(d: Decoder, lines: seq<string>)
    ensures InterpretAll(d, DataLines(lines)) == d.(data := d.data + Joined(lines))
    decreases |lines|
  {
    hide Interpret;
    if lines != [] {
      hide Joined;
      var first, rest := lines[0], lines[1..];
      DataLineInterpreted(d, first);
      assert DataLines(lines)[0] == "data: " + first && DataLines(lines)[1..] == DataLines(rest);
      DataAccumulates(d.(data := d.data + first + [LF]), rest);
      assert lines == [first] + rest;
      JoinedFirst(first, rest);
      Regroup(d.data, first, [LF], Joined(rest));
    } else {
      assert d.data + Joined(lines) == d.data;
    }
  }

  lemma {:induction false} InterpretAppend(d: Decoder, a: seq<string>, b: seq<string>)
    ensures InterpretAll(d, a + b) == InterpretAll(InterpretAll(d, a), b)
    decreases |a|
  {
    hide Interpret;
    if a == [] {
      assert a + b == b;
    } else {
      InterpretAppend(Interpret(d, a[0]), a[1..], b);
      assert (a + b)[1..] == a[1..] + b;
    }
  }

  lemma InterpretOne(d: Decoder, line: string)
    ensures InterpretAll(d, [line]) == Interpret(d, line)
  {
  }

  /** The message a frame stands for. */
  function Meaning(f: Frame): seq<Message> {
    match f
    case Event(name, payload) => [Message(if name == "" then "message" else name, payload, "")]
    case Heartbeat => []
  }

  function Meanings(frames: seq<Frame>): seq<Message> {
    if frames == [] then [] else Meanings(frames[..|frames| - 1]) + Meaning(frames[|frames| - 1])
  }

  lemma EventInterpreted(sent: seq<Message>, name: string, payload: string)
    ensures InterpretAll(Decoder("", "", "", sent), FrameLines(Event(name, payload)))
            == Decoder("", "", "", sent + Meaning(Event(name, payload)))
  {
    hide Interpret, InterpretAll, SplitLines;
    var d := Decoder("", "", "", sent);
    var data := DataLines(SplitLines(payload));
    InterpretAppend(d, ["event: " + name] + data, [""]);
    InterpretAppend(d, ["event: " + name], data);
    InterpretOne(d, "event: " + name);
    assert "event: " + name == "event" + ": " + name;
    FieldLine(d, "event", name);
    DataAccumulates(d.(event := name), SplitLines(payload));
    SplitLinesJoin(payload);
    var e := Decoder(name, payload + [LF], "", sent);
    assert d.(event := name).data + Joined(SplitLines(payload)) == payload + [LF];
    assert InterpretAll(d, ["event: " + name] + data) == e;
    InterpretOne(e, "");
    EmptyLineDispatches(e);
    assert (payload + [LF])[..|payload|] == payload;
  }

  lemma EmptyLineDispatches(d: Decoder)
    ensures Interpret(d, "") == Dispatch(d)
  {
  }

  /** A heartbeat is a comment line and an empty line, and means nothing between events. */
  lemma HeartbeatIgnored(sent: seq<Message>)
    ensures var lines := FrameLines(Heartbeat); |lines| == 2 && lines[0] != "" && lines[0][0] == ':' && lines[1] == ""
    ensures InterpretAll(Decoder("", "", "", sent), FrameLines(Heartbeat)) == Decoder("", "", "", sent)
  {
  }

  lemma {:induction false} FramesInterpreted(frames: seq<Frame>)
    ensures InterpretAll(Start, AllLines(frames)) == Decoder("", "", "", Meanings(frames))
  {
    hide FrameLines, Meaning;
    if frames != [] {
      var n := |frames| - 1;
      FramesInterpreted(frames[..n]);
      InterpretAppend(Start, AllLines(frames[..n]), FrameLines(frames[n]));
      match frames[n]
      case Event(name, payload) => EventInterpreted(Meanings(frames[..n]), name, payload);
      case Heartbeat =>
        HeartbeatIgnored(Meanings(frames[..n]));
        HeartbeatMeansNothing();
    }
  }

  lemma HeartbeatMeansNothing()
    ensures Meaning(Heartbeat) == []
  {
  }

  /** A piece between line feeds of a text without CR has no line break. */
  lemma {:induction false} PiecesAreLines(s: string)
    requires CR !in s
    ensures forall i :: 0 <= i < |SplitLines(s)| ==> OneLine(SplitLines(s)[i])
    decreases |s|
  {
    if LF in s {
      PiecesAreLines(s[FirstFeed(s) + 1..]);
    }
  }

  lemma CleanLines(f: Frame)
    requires Clean(f)
    ensures forall i :: 0 <= i < |FrameLines(f)| ==> OneLine(FrameLines(f)[i])
  {
    hide SplitLines;
    if f.Event? {
      var pieces := SplitLines(f.payload);
      PiecesAreLines(f.payload);
      forall i | 0 <= i < |FrameLines(f)| ensures OneLine(FrameLines(f)[i]) {
        if 0 < i <= |pieces| {
          assert OneLine(pieces[i - 1]);
        }
      }
    }
  }

  lemma {:induction false} AllCleanLines(frames: seq<Frame>)
    requires forall i :: 0 <= i < |frames| ==> Clean(frames[i])
    ensures forall i :: 0 <= i < |AllLines(frames)| ==> OneLine(AllLines(frames)[i])
  {
    hide FrameLines, Clean, OneLine;
    if frames != [] {
      AllCleanLines(frames[..|frames| - 1]);
      CleanLines(frames[|frames| - 1]);
    }
  }

  lemma {:induction false} NoBomWritten(frames: seq<Frame>)
    ensures Written(frames) != "" ==> Written(frames)[0] != BOM
  {
    if frames != [] {
      NoBomWritten(frames[..|frames| - 1]);
      FrameStartsPlain(frames[|frames| - 1]);
    }
  }

  lemma FrameStartsPlain(f: Frame)
    ensures Joined(FrameLines(f)) != "" && Joined(FrameLines(f))[0] != BOM
  {
    hide SplitLines;
    var lines := FrameLines(f);
    assert lines == [lines[0]] + lines[1..];
    JoinedAppend([lines[0]], lines[1..]);
    JoinedOne(lines[0]);
  }

  lemma {:induction false} RoundTrip(frames: seq<Frame>)
    requires forall i :: 0 <= i < |frames| ==> Clean(frames[i])
    ensures Decode(Written(frames)) == Meanings(frames)
  {
    hide Written, Lines, InterpretAll, Meanings;
    NoBomWritten(frames);
    WrittenIsJoined(frames);
    AllCleanLines(frames);
    LinesOfJoined(AllLines(frames));
    FramesInterpreted(frames);
  }

  // ---- Only clean frames come back ----

  predicate Plain(m: Message) { CR !in m.data && OneLine(m.event) }

  ghost predicate PlainDecoder(d: Decoder) {
    CR !in d.data && OneLine(d.event) && forall i :: 0 <= i < |d.sent| ==> Plain(d.sent[i])
  }

  lemma InterpretStaysPlain(d: Decoder, line: string)
    requires PlainDecoder(d) && OneLine(line)
    ensures PlainDecoder(Interpret(d, line))
  {
  }

  lemma {:induction false} AllStaysPlain(d: Decoder, lines: seq<string>)
    requires PlainDecoder(d) && forall i :: 0 <= i < |lines| ==> OneLine(lines[i])
    ensures PlainDecoder(InterpretAll(d, lines))
    decreases |lines|
  {
    hide Interpret, PlainDecoder, OneLine;
    if lines != [] {
      InterpretStaysPlain(d, lines[0]);
      AllStaysPlain(Interpret(d, lines[0]), lines[1..]);
    }
  }

  lemma {:induction false} LinesAreLines(s: string)
    ensures forall i :: 0 <= i < |Lines(s)| ==> OneLine(Lines(s)[i])
    decreases |s|
  {
    var i := FirstBreak(s);
    if i < |s| {
      if s[i] == CR && i + 1 < |s| && s[i + 1] == LF {
        LinesAreLines(s[i + 2..]);
      } else {
        LinesAreLines(s[i + 1..]);
      }
    }
  }

  /** No decoded message has a CR in its data or a line break in its event type. */
  lemma DecodedIsPlain(stream: string)
    ensures forall i :: 0 <= i < |Decode(stream)| ==> Plain(Decode(stream)[i])
  {
    hide Lines, InterpretAll;
    var s := if stream != "" && stream[0] == BOM then stream[1..] else stream;
    LinesAreLines(s);
    AllStaysPlain(Start, Lines(s));
  }

  lemma {:induction false} MeaningIsThere(frames: seq<Frame>, k: nat)
    requires k < |frames| && frames[k].Event?
    ensures Meaning(frames[k])[0] in Meanings(frames)
  {
    if k < |frames| - 1 {
      MeaningIsThere(frames[..|frames| - 1], k);
    }
  }

  lemma UncleanIsNotPlain(f: Frame)
    requires !Clean(f)
    ensures f.Event? && !Plain(Meaning(f)[0])
  {
  }

  lemma UncleanIsLost(frames: seq<Frame>, k: nat)
    requires k < |frames| && !Clean(frames[k])
    ensures Decode(Written(frames)) != Meanings(frames)
  {
    hide Written, Decode, Meanings, Clean, Plain, Meaning;
    UncleanIsNotPlain(frames[k]);
    DecodedIsPlain(Written(frames));
    MeaningIsThere(frames, k);
  }

  /**
   Decoding any concatenation of written frames and heartbeats gives exactly the events and payloads written, in order,
   if and only if no payload contains a CR and no event name a CR or LF.
   */
  lemma RoundTripExactly(frames: seq<Frame>)
    ensures Decode(Written(frames)) == Meanings(frames) <==> forall i :: 0 <= i < |frames| ==> Clean(frames[i])
  {
    hide Written, Decode, Meanings, Clean;
    if forall i :: 0 <= i < |frames| ==> Clean(frames[i]) {
      RoundTrip(frames);
    } else {
      var k :| 0 <= k < |frames| && !Clean(frames[k]);
      UncleanIsLost(frames, k);
    }
  }
}
