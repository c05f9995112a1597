/** Encoder, network, parser and assembler composed: the streamed answer is the direct answer. */
module StreamPipeline {
  import opened Text
  import opened StreamTypes
  import opened SseFraming
  import opened SseParser
  import opened MessageStream
  import opened Delivery
  import opened BlockAssembler
  import opened MockService

  // --- One frame, printed and parsed ---

  /** A name the frame parser reads back as it is and does not skip. */
  predicate PlainName(name: string) {
    name != "" && OneLine(name) && IsTrimmed(name) && name != "ping"
  }

  lemma TagsArePlain(e: StreamEvent)
    ensures PlainName(EventTag(e))
  {
  }

  lemma {:induction false} TrimAfterSpace(s: string)
    requires s != "" && !IsWhitespace(s[0])
    ensures TrimStart(" " + s) == s
  {
    assert (" " + s)[1..] == s;
    TrimStartTrimmed(s);
  }

  lemma TwoLines(a: string, b: string)
    requires OneLine(a) && OneLine(b) && a != "" && b != ""
    requires !IsWhitespace(a[0]) && !IsWhitespace(a[|a| - 1]) && !IsWhitespace(b[|b| - 1])
    ensures Trim(a + "\n" + b) == a + "\n" + b
    ensures Lines(a + "\n" + b) == [a, b]
  {
    hide Trim, SplitLf;
    TrimTrimmed(a + "\n" + b);
    SplitConcat(a, b);
    SplitOneLine(a);
    SplitOneLine(b);
    assert StripAll([a]) == [a];
    assert [a, b][..1] == [a];
  }

  lemma AfterPrefix(prefix: string, rest: string)
    ensures StartsWith(prefix + rest, prefix) && (prefix + rest)[|prefix|..] == rest
  {
  }

  lemma HeaderLine(name: string)
    ensures var a := "event: " + name; IsEventLine(a) && !IsDataLine(a) && a[6..] == " " + name
  {
    var a := "event: " + name;
    AfterPrefix("event:", " " + name);
    assert a == "event:" + (" " + name);
    assert a[0] == 'e';
  }

  lemma PayloadLine(payload: string)
    ensures var b := "data: " + payload; !IsEventLine(b) && IsDataLine(b) && b[5..] == " " + payload
  {
    var b := "data: " + payload;
    AfterPrefix("data:", " " + payload);
    assert b == "data:" + (" " + payload);
    assert b[0] == 'd';
    assert b[..6][0] == 'd';
  }

  lemma EventThenData(name: string, payload: string)
    requires PlainName(name) && payload != "" && !IsWhitespace(payload[0])
    ensures EventName(["event: " + name, "data: " + payload]) == Some(name)
    ensures DataLines(["event: " + name, "data: " + payload]) == [payload]
  {
    hide Trim, TrimStart, IsEventLine, IsDataLine, EventName, DataLines;
    var lines := ["event: " + name, "data: " + payload];
    HeaderLine(name);
    PayloadLine(payload);
    TrimAfterSpace(payload);
    NameTrims(name);
    assert lines[..0] == [] && lines[..2] == lines;
    NoLines();
    OneMoreLine(lines, 1);
    OneMoreLine(lines, 0);
  }

  lemma NameTrims(name: string)
    requires PlainName(name)
    ensures Trim(" " + name) == name
  {
    TrimAfterSpace(name);
  }

  lemma FrameRoundTrip(codec: Codec, context: Context, e: StreamEvent)
    requires Lawful(codec)
    ensures FrameMeaning(codec, context, FrameText(codec, e)) == Event(e)
  {
    hide Trim, TrimStart, Lines, EventName, DataLines, EventTag;
    var name, payload := EventTag(e), codec.printEvent(e);
    TagsArePlain(e);
    assert PrintsAsObject(payload);
    var a, b := "event: " + name, "data: " + payload;
    assert OneLine(payload) && b[|b| - 1] == '}' && a[|a| - 1] == name[|name| - 1];
    TwoLines(a, b);
    EventThenData(name, payload);
    assert FrameText(codec, e) == a + "\n" + b;
    assert Join([payload]) == payload;
    assert payload[0] == '{';
    assert payload != "[DONE]";
    assert codec.parseEvent(payload) == Some(e);
  }

  // --- The encoded body as bytes ---

  /** A header line, a line feed and a payload line: the first LF LF comes right behind them. */
  lemma TwoLinesThenBlank(a: seq<byte>, b: seq<byte>, tail: seq<byte>)
    requires a != [] && b != [] && 10 !in a && 10 !in b
    ensures NextSeparator(a + [10] + b + [10, 10] + tail) == Some(Separator(|a| + 1 + |b|, 2))
  {
    var all := a + [10] + b + [10, 10] + tail;
    var p := |a| + 1 + |b|;
    forall i | 0 <= i < p
      ensures !LfAt(all, i)
    {
      if i < |a| {
        assert all[i] == a[i];
      } else if i == |a| {
        assert all[i + 1] == b[0];
      } else {
        assert all[i] == b[i - |a| - 1];
      }
    }
    assert all[p] == 10 && all[p + 1] == 10;
    FirstLfIs(all, p);
  }

  lemma FrameBytes(codec: Codec, e: StreamEvent) returns (a: seq<byte>, b: seq<byte>)
    requires Lawful(codec)
    ensures a != [] && b != [] && 10 !in a && 10 !in b && 13 !in a && 13 !in b
    ensures Utf8(FrameText(codec, e)) == a + [10] + b
    ensures Utf8(Framed(codec, e)) == a + [10] + b + [10, 10]
  {
    hide EventTag;
    var x, y := "event: " + EventTag(e), "data: " + codec.printEvent(e);
    TagsArePlain(e);
    assert PrintsAsObject(codec.printEvent(e));
    TagHasNoCr(e);
    assert OneLine(x) && OneLine(y) && '\r' !in x && '\r' !in y;
    a, b := Utf8(x), Utf8(y);
    Utf8Clean(x);
    Utf8Clean(y);
    Utf8Concat(x, "\n");
    Utf8Concat(x + "\n", y);
    Utf8Concat(x + "\n" + y, "\n\n");
    NewlineBytes();
  }

  lemma NewlineBytes()
    ensures Utf8("\n") == [10] && Utf8("\n\n") == [10, 10]
  {
    assert "\n"[1..] == "" && "\n\n"[1..] == "\n";
  }

  lemma TagHasNoCr(e: StreamEvent)
    ensures '\r' !in EventTag(e)
  {
  }

  function FrameSeq(codec: Codec, events: seq<StreamEvent>): seq<seq<byte>> {
    if events == [] then [] else [Utf8(FrameText(codec, events[0]))] + FrameSeq(codec, events[1..])
  }

  /** The body of a response splits into exactly its frames, with nothing left over. */
  lemma {:induction false} BodyDrains(codec: Codec, events: seq<StreamEvent>)
    requires Lawful(codec)
    ensures Frames(Drain(Utf8(Encode(codec, events))).pieces) == FrameSeq(codec, events)
    ensures Drain(Utf8(Encode(codec, events))).rest == []
    ensures 13 !in Utf8(Encode(codec, events))
  {
    hide Drain, NextSeparator, Framed, FrameText;
    var body := Utf8(Encode(codec, events));
    if events == [] {
      EmptyDrains();
    } else {
      var a, b := FrameBytes(codec, events[0]);
      var later := Utf8(Encode(codec, events[1..]));
      Utf8Concat(Framed(codec, events[0]), Encode(codec, events[1..]));
      assert body == a + [10] + b + [10, 10] + later;
      TwoLinesThenBlank(a, b, later);
      var s := Separator(|a| + 1 + |b|, 2);
      DrainHead(body, s);
      assert After(body, s) == later && FirstPiece(body, s).frame == a + [10] + b;
      BodyDrains(codec, events[1..]);
      assert Drain(body).pieces[1..] == Drain(later).pieces;
    }
  }

  lemma EmptyDrains()
    ensures Drain([]) == Drained([], [])
  {
  }

  lemma {:induction false} FramesMeanEvents(codec: Codec, context: Context, events: seq<StreamEvent>)
    requires Lawful(codec)
    ensures AllParse(codec, context, FrameSeq(codec, events))
    ensures Events(codec, context, FrameSeq(codec, events)) == events
  {
    hide FrameText, FrameMeaning;
    if events != [] {
      FramesMeanEvents(codec, context, events[1..]);
      FrameRoundTrip(codec, context, events[0]);
      var frames := FrameSeq(codec, events);
      assert frames[1..] == FrameSeq(codec, events[1..]);
      assert codec.lossy(Utf8(FrameText(codec, events[0]))) == FrameText(codec, events[0]);
    }
  }

  /** Encoding, any chunking, framing and parsing deliver the encoded events. */
  lemma DeliveredEvents(codec: Codec, context: Context, events: seq<StreamEvent>, chunks: seq<seq<byte>>)
    requires Lawful(codec) && Flatten(chunks) == Utf8(Encode(codec, events))
    ensures Pull(codec, context, [], [], chunks) == Trace(events, None)
  {
    hide Drain, Pull, Encode, Lawful, AllParse, Events, FrameSeq;
    var stream := Utf8(Encode(codec, events));
    BodyDrains(codec, events);
    assert AllFrames(Drain(stream)) == FrameSeq(codec, events);
    FramesMeanEvents(codec, context, events);
    SingleSeparatorKind(stream);
    DeliveryIndependentOfChunking(codec, context, stream, chunks);
  }

  // --- A malformed frame behind an event ---

  const BAD_LINE := "data: x"

  lemma BadLineMeaning(codec: Codec, context: Context)
    requires codec.parseEvent("x").None?
    ensures FrameMeaning(codec, context, BAD_LINE).Malformed?
  {
    hide Trim, TrimStart, Lines, EventName, DataLines, IsEventLine, IsDataLine;
    var lines := [BAD_LINE];
    assert BAD_LINE == "data: " + "x";
    BadLineReads();
    PayloadLine("x");
    TrimAfterSpace("x");
    assert lines[..0] == [] && lines[..1] == lines;
    NoLines();
    OneMoreLine(lines, 0);
    assert Join(["x"]) == "x";
  }

  lemma BadLineReads()
    ensures Trim(BAD_LINE) == BAD_LINE && Lines(BAD_LINE) == [BAD_LINE]
  {
    hide Trim, SplitLf;
    TrimTrimmed(BAD_LINE);
    SplitOneLine(BAD_LINE);
    assert [BAD_LINE][..0] == [];
  }

  lemma BadLineBytes() returns (b: seq<byte>)
    ensures b == Utf8(BAD_LINE) && b != [] && 10 !in b && 13 !in b
    ensures Utf8(BAD_LINE + "\n\n") == b + [10, 10]
  {
    b := Utf8(BAD_LINE);
    Utf8Clean(BAD_LINE);
    Utf8Concat(BAD_LINE, "\n\n");
    NewlineBytes();
  }

  lemma LineThenBlank(b: seq<byte>)
    requires b != [] && 10 !in b
    ensures Frames(Drain(b + [10, 10]).pieces) == [b]
  {
    hide Drain, NextSeparator;
    var all := b + [10, 10];
    forall i | 0 <= i < |b|
      ensures !LfAt(all, i)
    {
      assert all[i] == b[i];
    }
    BlankIsSeparator(b);
    var s := Separator(|b|, 2);
    DrainHead(all, s);
    assert After(all, s) == [] && FirstPiece(all, s).frame == b;
    EmptyDrains();
    assert [FirstPiece(all, s)][1..] == [];
  }

  lemma BlankIsSeparator(b: seq<byte>)
    requires forall i :: 0 <= i < |b| ==> !LfAt(b + [10, 10], i)
    ensures NextSeparator(b + [10, 10]) == Some(Separator(|b|, 2))
  {
    FirstLfIs(b + [10, 10], |b|);
  }

  /** An event followed by a frame that is no JSON: whether the event arrives depends on the chunking. */
  lemma MalformedBehindEvent(codec: Codec, context: Context, e: StreamEvent)
    requires Lawful(codec) && codec.parseEvent("x").None?
    ensures var stream := Utf8(Framed(codec, e) + (BAD_LINE + "\n\n"));
            LfBeforeCrlf(stream) && !DeliveryIndependent(codec, context, stream)
  {
    hide Drain, NextSeparator, Framed, FrameText, FrameMeaning, LfBeforeCrlf, DeliveryIndependent, UntilMalformed, Utf8;
    var stream := Utf8(Framed(codec, e) + (BAD_LINE + "\n\n"));
    var a, b := FrameBytes(codec, e);
    var c := BadLineBytes();
    Utf8Concat(Framed(codec, e), BAD_LINE + "\n\n");
    var later := c + [10, 10];
    assert stream == a + [10] + b + [10, 10] + later;
    TwoLinesThenBlank(a, b, later);
    var s := Separator(|a| + 1 + |b|, 2);
    DrainHead(stream, s);
    assert After(stream, s) == later && FirstPiece(stream, s).frame == a + [10] + b;
    LineThenBlank(c);
    var frames := Frames(Drain(stream).pieces);
    assert Drain(stream).pieces[1..] == Drain(later).pieces;
    assert frames[0] == a + [10] + b && frames[1..] == [c];
    FrameRoundTrip(codec, context, e);
    BadLineMeaning(codec, context);
    assert BytesMeaning(codec, context, frames[0]) == Event(e);
    assert BytesMeaning(codec, context, c).Malformed?;
    UntilStep(codec, context, frames);
    UntilStep(codec, context, [c]);
    SingleSeparatorKind(stream);
    DeliveryIndependentIff(codec, context, stream);
  }

  // --- Assembling the delivered events ---

  lemma {:induction false} ProjectConcat(a: seq<StreamEvent>, b: seq<StreamEvent>, i: u32)
    ensures Project(a + b, i) == Project(a, i) + Project(b, i)
  {
    hide Concerns;
    if a == [] {
      assert a + b == b;
    } else {
      ProjectConcat(a[1..], b, i);
      assert (a + b)[1..] == a[1..] + b;
    }
  }

  lemma {:induction false} ProjectUniform(events: seq<StreamEvent>, i: u32)
    ensures (forall e :: e in events ==> Concerns(e, i)) ==> Project(events, i) == events
    ensures (forall e :: e in events ==> !Concerns(e, i)) ==> Project(events, i) == []
  {
    if events != [] {
      ProjectUniform(events[1..], i);
      assert events == [events[0]] + events[1..];
    }
  }

  lemma ProjectBlock(n: u32, use: ToolUseSse, i: u32)
    ensures Project(BlockEvents(n, use), i) == if i == n then BlockEvents(n, use) else []
    ensures NoStop(BlockEvents(n, use))
  {
    hide Project;
    assert forall e :: e in BlockEvents(n, use) ==> Concerns(e, n);
    ProjectUniform(BlockEvents(n, use), i);
  }

  lemma {:induction false} ProjectBlocks(uses: seq<ToolUseSse>, i: u32)
    requires |uses| <= 0x1_0000_0000
    ensures Project(AllBlockEvents(uses), i) == if i < |uses| then BlockEvents(i, uses[i]) else []
    ensures NoStop(AllBlockEvents(uses))
  {
    hide BlockEvents, Project;
    if uses == [] {
      ProjectUniform([], i);
    } else {
      var n := |uses| - 1;
      ProjectBlocks(uses[..n], i);
      ProjectBlock(n, uses[n], i);
      ProjectConcat(AllBlockEvents(uses[..n]), BlockEvents(n, uses[n]), i);
    }
  }

  lemma {:induction false} AbsorbConcat(codec: Codec, a: Assembly, x: seq<StreamEvent>, y: seq<StreamEvent>)
    requires NoStop(x) && !a.sawStop
    ensures Absorb(codec, a, x + y) == Absorb(codec, Absorb(codec, a, x), y)
    decreases |x|
  {
    hide Step;
    if x == [] {
      assert x + y == y;
    } else {
      StepGoesOn(codec, a, x[0]);
      AbsorbConcat(codec, Step(codec, a, x[0]), x[1..], y);
      assert (x + y)[1..] == x[1..] + y;
    }
  }

  lemma {:induction false} ContentOf(m: map<u32, OutputContentBlock>, values: seq<OutputContentBlock>, n: nat)
    requires |values| <= 0x1_0000_0000 && n <= 0x1_0000_0000
    requires forall i: u32 :: At(m, i) == if i < |values| then Some(values[i]) else None
    ensures ValuesBelow(m, n) == values[..if n <= |values| then n else |values|]
    decreases n
  {
    if n > 0 {
      ContentOf(m, values, n - 1);
      var i: u32 := n - 1;
      assert At(m, i) == if i < |values| then Some(values[i]) else None;
    }
  }

  /** The blocks the code builds out of the pieces of JSON it was sent. */
  function SentBlocks(codec: Codec, uses: seq<ToolUseSse>): (r: seq<OutputContentBlock>)
    ensures |r| == |uses|
  {
    seq(|uses|, k requires 0 <= k < |uses| =>
      ToolUse(uses[k].toolId, uses[k].toolName, DecodedInput(codec, Flatten(uses[k].partialJsonChunks))))
  }

  lemma FinishedAt(codec: Codec, model: string, uses: seq<ToolUseSse>, events: seq<StreamEvent>, i: u32)
    requires |uses| <= 0x1_0000_0000 && NoStop(events)
    requires Project(events, i) == if i < |uses| then BlockEvents(i, uses[i]) else []
    ensures At(Absorb(codec, Fresh(model), events).finished, i)
            == if i < |uses| then Some(SentBlocks(codec, uses)[i]) else None
  {
    hide Absorb, SlotStep, DecodedInput, Project;
    NothingStops(events);
    Projection(codec, Fresh(model), events, i);
    if i < |uses| {
      ToolBlock(codec, SlotOf(Fresh(model), i), i, uses[i].toolId, uses[i].toolName, uses[i].partialJsonChunks);
    }
  }

  lemma AssembledBlocks(codec: Codec, model: string, uses: seq<ToolUseSse>)
    requires |uses| <= 0x1_0000_0000
    ensures var a := Absorb(codec, Fresh(model), ToolUseEvents(uses));
            && a.sawStop && a.stopReason == Some("tool_use") && a.usage == Usage(12, 0, 0, 4)
            && a.id == MessageId(uses) && a.model == DEFAULT_MODEL && Content(a.finished) == SentBlocks(codec, uses)
  {
    hide Absorb, SentBlocks, ValuesBelow, Project, StartBlock, GrowBlock, StopBlock;
    var first := StartMessage(MessageId(uses), 12);
    var last := MessageDelta(Some("tool_use"), None, UsageOf(12, 4));
    var body := [first] + AllBlockEvents(uses);
    ProjectBlocks(uses, 0);
    assert NoStop(body);
    assert ToolUseEvents(uses) == body + [last, MessageStop];
    AbsorbConcat(codec, Fresh(model), body, [last, MessageStop]);
    Projection(codec, Fresh(model), body, 0);
    var a := Absorb(codec, Fresh(model), body);
    LastTwo(codec, a, last);
    ProjectBlocksOnly(uses);
    HeadThenBlocks(codec, Fresh(model), first, AllBlockEvents(uses));
    forall i: u32
      ensures At(a.finished, i) == if i < |uses| then Some(SentBlocks(codec, uses)[i]) else None
    {
      ProjectBlocks(uses, i);
      ProjectConcat([first], AllBlockEvents(uses), i);
      ProjectUniform([first], i);
      assert [] + Project(AllBlockEvents(uses), i) == Project(AllBlockEvents(uses), i);
      FinishedAt(codec, model, uses, body, i);
    }
    ContentOf(a.finished, SentBlocks(codec, uses), 0x1_0000_0000);
  }

  predicate OnlyBlocks(events: seq<StreamEvent>) {
    forall e :: e in events ==> e.BlockStart? || e.BlockDelta? || e.BlockStop?
  }

  lemma {:induction false} ProjectBlocksOnly(uses: seq<ToolUseSse>)
    requires |uses| <= 0x1_0000_0000
    ensures OnlyBlocks(AllBlockEvents(uses))
  {
    hide BlockEvents;
    if uses != [] {
      ProjectBlocksOnly(uses[..|uses| - 1]);
      OneBlockOnly(|uses| - 1, uses[|uses| - 1]);
    }
  }

  lemma OneBlockOnly(i: u32, use: ToolUseSse)
    ensures OnlyBlocks(BlockEvents(i, use))
  {
  }

  /** Blocks do not touch the message around them. */
  lemma {:induction false} BlocksKeepMessage(codec: Codec, a: Assembly, events: seq<StreamEvent>)
    requires OnlyBlocks(events)
    ensures var b := Absorb(codec, a, events); b.id == a.id && b.model == a.model
    decreases |events|
  {
    hide Step, Absorb;
    AbsorbStep(codec, a, events);
    if events != [] && !a.sawStop {
      assert events[0] in events;
      FieldsStep(codec, a, events[0]);
      BlocksKeepMessage(codec, Step(codec, a, events[0]), events[1..]);
    }
  }

  lemma HeadThenBlocks(codec: Codec, a: Assembly, head: StreamEvent, blocks: seq<StreamEvent>)
    requires head.MessageStart? && OnlyBlocks(blocks) && !a.sawStop
    ensures var b := Absorb(codec, a, [head] + blocks); b.id == head.message.id && b.model == head.message.model
  {
    hide Absorb, Step;
    var events := [head] + blocks;
    AbsorbStep(codec, a, events);
    assert events[1..] == blocks;
    FieldsStep(codec, a, head);
    BlocksKeepMessage(codec, Step(codec, a, head), blocks);
  }

  lemma LastTwo(codec: Codec, a: Assembly, last: StreamEvent)
    requires last.MessageDelta? && last.stopReason.Some? && !a.sawStop
    ensures Absorb(codec, a, [last, MessageStop])
            == a.(usage := last.usage, stopReason := last.stopReason, sawStop := true)
  {
    var events := [last, MessageStop];
    assert events[1..] == [MessageStop] && events[1..][1..] == [];
    var b := Step(codec, a, last);
    AbsorbStep(codec, a, events);
    AbsorbStep(codec, b, events[1..]);
    AbsorbStep(codec, Step(codec, b, MessageStop), []);
  }

  // --- End to end ---

  /** The same calls, told to the streaming and to the direct endpoint. */
  ghost predicate SameCalls(uses: seq<ToolUseSse>, messages: seq<ToolUseMessage>) {
    && |uses| == |messages|
    && forall k :: 0 <= k < |uses| ==>
         uses[k].toolId == messages[k].toolId && uses[k].toolName == messages[k].toolName
  }

  /** Every call's pieces of JSON put together decode to its input. */
  ghost predicate PiecesDecode(codec: Codec, uses: seq<ToolUseSse>, messages: seq<ToolUseMessage>)
    requires |uses| == |messages|
  {
    forall k :: 0 <= k < |uses| ==> DecodedInput(codec, Flatten(uses[k].partialJsonChunks)) == messages[k].input
  }

  lemma SentEqualsDirect(codec: Codec, id: string, uses: seq<ToolUseSse>, messages: seq<ToolUseMessage>)
    requires SameCalls(uses, messages)
    ensures SentBlocks(codec, uses) == ToolMessageResponseMany(id, messages).content
            <==> PiecesDecode(codec, uses, messages)
  {
    hide DecodedInput;
    var sent, direct := SentBlocks(codec, uses), ToolMessageResponseMany(id, messages).content;
    if sent == direct {
      forall k | 0 <= k < |uses|
        ensures DecodedInput(codec, Flatten(uses[k].partialJsonChunks)) == messages[k].input
      {
        assert sent[k] == direct[k];
      }
    }
  }

  /**
   * Streaming a tool-use turn through any network chunking yields the content of the direct
   * response, call by call and in order, exactly when the pieces of each input decode to it.
   */
  method StreamedTurn(codec: Codec, context: Context, uses: seq<ToolUseSse>, chunks: seq<seq<byte>>,
                      model: string, requestId: Option<string>,
                      ghost id: string, ghost messages: seq<ToolUseMessage>)
    returns (outcome: Outcome)
    requires Lawful(codec)
    requires 0 < |uses| <= 0x1_0000_0000 && SameCalls(uses, messages)
    requires Flatten(chunks) == Utf8(Encode(codec, ToolUseEvents(uses)))
    ensures outcome.Streamed?
    ensures outcome.response.content == ToolMessageResponseMany(id, messages).content
            <==> PiecesDecode(codec, uses, messages)
    ensures outcome.response.content == SentBlocks(codec, uses)
    ensures outcome.response.stopReason == ToolMessageResponseMany(id, messages).stopReason
    ensures outcome.response == MessageResponse(
              "msg_" + uses[0].toolId, "message", "assistant", SentBlocks(codec, uses), DEFAULT_MODEL,
              Some("tool_use"), None, Usage(12, 0, 0, 4), requestId)
  {
    hide Lawful, Encode, ToolUseEvents, Absorb, Pull, Content, SentBlocks, PiecesDecode;
    var stream := new Stream(codec, context, chunks);
    outcome := StreamToMessageResponse(codec, stream, model, requestId);
    DeliveredEvents(codec, context, ToolUseEvents(uses), chunks);
    AssembledBlocks(codec, model, uses);
    SentEqualsDirect(codec, id, uses, messages);
  }

  /** Pieces that together are the JSON text of the input always decode to it. */
  lemma ValidPiecesDecode(codec: Codec, uses: seq<ToolUseSse>, messages: seq<ToolUseMessage>)
    requires SameCalls(uses, messages)
    requires forall k :: 0 <= k < |uses| ==>
               codec.parseJson(Flatten(uses[k].partialJsonChunks)) == Some(messages[k].input)
    ensures PiecesDecode(codec, uses, messages)
  {
  }

  /** Without any JSON text a call's input becomes an empty text under "raw", so it is no empty object. */
  lemma NoPiecesBecomeRaw(codec: Codec, use: ToolUseSse, message: ToolUseMessage)
    requires codec.parseJson("").None? && Flatten(use.partialJsonChunks) == ""
    ensures SentBlocks(codec, [use]) == [ToolUse(use.toolId, use.toolName, Object(map["raw" := String("")]))]
    ensures PiecesDecode(codec, [use], [message]) <==> message.input == Object(map["raw" := String("")])
    ensures message.input == Object(map[]) ==> !PiecesDecode(codec, [use], [message])
  {
    assert [use][0] == use && [message][0] == message;
    assert "raw" in map["raw" := String("")];
  }

  // --- A text turn ---

  lemma AssembledText(codec: Codec, model: string, id: string, text: string, inputTokens: u32, outputTokens: u32)
    ensures var a := Absorb(codec, Fresh(model), FinalTextEvents(id, text, inputTokens, outputTokens));
            && a.sawStop && a.stopReason == Some("end_turn") && a.id == id && a.model == DEFAULT_MODEL
            && a.usage == UsageOf(inputTokens, outputTokens)
            && Content(a.finished) == if text == "" then [] else [OutputContentBlock.Text(text)]
  {
    hide Absorb, ValuesBelow;
    var events := FinalTextEvents(id, text, inputTokens, outputTokens);
    assert events == events[..4] + [events[4], events[5]];
    var opening := events[..4];
    AbsorbConcat(codec, Fresh(model), opening, [events[4], events[5]]);
    FourSteps(codec, Fresh(model), opening, text);
    var a := Absorb(codec, Fresh(model), opening);
    LastTwo(codec, a, events[4]);
    var values := if text == "" then [] else [OutputContentBlock.Text(text)];
    ContentOf(a.finished, values, 0x1_0000_0000);
  }

  lemma FourSteps(codec: Codec, a: Assembly, events: seq<StreamEvent>, text: string)
    requires !a.sawStop && a.kind == map[] && a.text == map[]
    requires |events| == 4 && events[0].MessageStart? && events[1] == BlockStart(0, OutputContentBlock.Text(""))
    requires events[2] == BlockDelta(0, TextDelta(text)) && events[3] == BlockStop(0)
    ensures Absorb(codec, a, events)
            == a.(id := events[0].message.id, model := events[0].message.model,
                  finished := if text == "" then a.finished else a.finished[0 := OutputContentBlock.Text(text)])
  {
    hide Absorb;
    var b := Step(codec, a, events[0]);
    var c := Step(codec, b, events[1]);
    var d := Step(codec, c, events[2]);
    var e := Step(codec, d, events[3]);
    assert e.kind == a.kind && e.text == a.text;
    assert d.text[0] == text by {
      assert "" + text == text;
    }
    AbsorbStep(codec, a, events);
    AbsorbStep(codec, b, events[1..]);
    AbsorbStep(codec, c, events[2..]);
    AbsorbStep(codec, d, events[3..]);
    AbsorbStep(codec, e, events[4..]);
    assert events[1..][1..] == events[2..] && events[2..][1..] == events[3..] && events[3..][1..] == events[4..];
  }

  /**
   * Streaming a text turn through any network chunking yields the direct response but for the request
   * id; an empty text yields no block, so the assembler asks again without streaming.
   */
  method StreamedText(codec: Codec, context: Context, text: string, inputTokens: u32, outputTokens: u32,
                      chunks: seq<seq<byte>>, model: string, requestId: Option<string>, id: string)
    returns (outcome: Outcome)
    requires Lawful(codec)
    requires Flatten(chunks) == Utf8(Encode(codec, FinalTextEvents(id, text, inputTokens, outputTokens)))
    ensures text == "" <==> outcome.NonStreaming?
    ensures text != "" ==>
              outcome == Streamed(TextMessageResponse(id, text, inputTokens, outputTokens).(requestId := requestId))
    ensures text != "" ==>
              && outcome.response.content == [OutputContentBlock.Text(text)] && outcome.response.id == id
              && outcome.response.usage == Usage(inputTokens, 0, 0, outputTokens)
              && outcome.response.stopReason == Some("end_turn")
  {
    hide Lawful, Encode, FinalTextEvents, Absorb, Pull, Content;
    var stream := new Stream(codec, context, chunks);
    outcome := StreamToMessageResponse(codec, stream, model, requestId);
    DeliveredEvents(codec, context, FinalTextEvents(id, text, inputTokens, outputTokens), chunks);
    AssembledText(codec, model, id, text, inputTokens, outputTokens);
  }
}
