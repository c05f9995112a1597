/** The mock service's streaming encoder and its non-streaming reference response. */
module MockService {
  import opened Text
  import opened StreamTypes
  import opened BlockAssembler

  const DEFAULT_MODEL := "claude-sonnet-4-6"

  /** One tool call, its input given as JSON text in pieces. */
  datatype ToolUseSse = ToolUseSse(toolId: string, toolName: string, partialJsonChunks: seq<string>)

  datatype ToolUseMessage = ToolUseMessage(toolId: string, toolName: string, input: Json)

  function EventTag(e: StreamEvent): string {
    match e
    case MessageStart(_) => "message_start"
    case MessageDelta(_, _, _) => "message_delta"
    case BlockStart(_, _) => "content_block_start"
    case BlockDelta(_, _) => "content_block_delta"
    case BlockStop(_) => "content_block_stop"
    case MessageStop => "message_stop"
  }

  /** The two lines that carry an event. */
  function FrameText(codec: Codec, e: StreamEvent): string {
    ("event: " + EventTag(e)) + "\n" + ("data: " + codec.printEvent(e))
  }

  /** A frame with the blank line that ends it. */
  function Framed(codec: Codec, e: StreamEvent): string {
    FrameText(codec, e) + "\n\n"
  }

  function Encode(codec: Codec, events: seq<StreamEvent>): string {
    if events == [] then "" else Framed(codec, events[0]) + Encode(codec, events[1..])
  }

  lemma {:induction false} EncodeConcat(codec: Codec, a: seq<StreamEvent>, b: seq<StreamEvent>)
    ensures Encode(codec, a + b) == Encode(codec, a) + Encode(codec, b)
  {
    hide Framed;
    if a == [] {
      assert a + b == b;
    } else {
      EncodeConcat(codec, a[1..], b);
      assert (a + b)[1..] == a[1..] + b;
    }
  }

  function UsageOf(inputTokens: u32, outputTokens: u32): Usage {
    Usage(inputTokens, 0, 0, outputTokens)
  }

  function StartMessage(id: string, inputTokens: u32): StreamEvent {
    MessageStart(MessageResponse(id, "message", "assistant", [], DEFAULT_MODEL, None, None, UsageOf(inputTokens, 0), None))
  }

  function BlockEvents(i: u32, use: ToolUseSse): seq<StreamEvent> {
    [BlockStart(i, ToolUse(use.toolId, use.toolName, Object(map[])))]
    + JsonDeltas(i, use.partialJsonChunks) + [BlockStop(i)]
  }

  function AllBlockEvents(uses: seq<ToolUseSse>): seq<StreamEvent>
    requires |uses| <= 0x1_0000_0000
  {
    if uses == [] then []
    else AllBlockEvents(uses[..|uses| - 1]) + BlockEvents(|uses| - 1, uses[|uses| - 1])
  }

  function MessageId(uses: seq<ToolUseSse>): string {
    if uses == [] then "msg_tool_use" else "msg_" + uses[0].toolId
  }

  /** The event stream of a tool-use turn. */
  function ToolUseEvents(uses: seq<ToolUseSse>): seq<StreamEvent>
    requires |uses| <= 0x1_0000_0000
  {
    [StartMessage(MessageId(uses), 12)] + AllBlockEvents(uses)
    + [MessageDelta(Some("tool_use"), None, UsageOf(12, 4)), MessageStop]
  }

  method AppendSse(codec: Codec, buffer: string, e: StreamEvent) returns (r: string)
    ensures r == buffer + Encode(codec, [e])
  {
    hide FrameText;
    r := buffer + ("event: " + EventTag(e) + "\n");
    r := r + ("data: " + codec.printEvent(e) + "\n");
    r := r + "\n";
    assert [e][1..] == [];
    FrameTextIs(codec, e);
    assert r == buffer + Framed(codec, e);
    assert Encode(codec, [e]) == Framed(codec, e);
  }

  lemma FrameTextIs(codec: Codec, e: StreamEvent)
    ensures FrameText(codec, e) == "event: " + EventTag(e) + "\n" + "data: " + codec.printEvent(e)
  {
  }

  /** One turn of the outer loop: a block's start, its deltas and its stop. */
  method AppendBlock(codec: Codec, body: string, ghost sent: seq<StreamEvent>, index: u32, use: ToolUseSse)
    returns (r: string)
    requires body == Encode(codec, sent)
    ensures r == Encode(codec, sent + BlockEvents(index, use))
  {
    hide Encode;
    var start := BlockStart(index, ToolUse(use.toolId, use.toolName, Object(map[])));
    EncodeConcat(codec, sent, [start]);
    r := AppendSse(codec, body, start);
    ghost var now := sent + [start];
    for k := 0 to |use.partialJsonChunks|
      invariant now == sent + ([start] + JsonDeltas(index, use.partialJsonChunks[..k]))
      invariant r == Encode(codec, now)
    {
      var delta := BlockDelta(index, InputJsonDelta(use.partialJsonChunks[k]));
      EncodeConcat(codec, now, [delta]);
      r := AppendSse(codec, r, delta);
      now := now + [delta];
    }
    assert use.partialJsonChunks[..|use.partialJsonChunks|] == use.partialJsonChunks;
    EncodeConcat(codec, now, [BlockStop(index)]);
    r := AppendSse(codec, r, BlockStop(index));
    assert now + [BlockStop(index)] == sent + BlockEvents(index, use);
  }

  method ToolUsesSse(codec: Codec, uses: seq<ToolUseSse>) returns (body: string)
    requires |uses| <= 0x1_0000_0000
    ensures body == Encode(codec, ToolUseEvents(uses))
  {
    hide Encode, BlockEvents;
    var first := StartMessage(MessageId(uses), 12);
    EncodeNothing(codec);
    body := AppendSse(codec, "", first);
    assert [first] + AllBlockEvents(uses[..0]) == [first];
    for index := 0 to |uses|
      invariant body == Encode(codec, [first] + AllBlockEvents(uses[..index]))
    {
      ghost var sent := [first] + AllBlockEvents(uses[..index]);
      body := AppendBlock(codec, body, sent, index, uses[index]);
      assert uses[..index + 1][..index] == uses[..index];
      assert sent + BlockEvents(index, uses[index]) == [first] + AllBlockEvents(uses[..index + 1]);
    }
    var last := MessageDelta(Some("tool_use"), None, UsageOf(12, 4));
    assert uses[..|uses|] == uses;
    ghost var sent := [first] + AllBlockEvents(uses);
    EncodeConcat(codec, sent, [last]);
    body := AppendSse(codec, body, last);
    EncodeConcat(codec, sent + [last], [MessageStop]);
    body := AppendSse(codec, body, MessageStop);
    assert ToolUseEvents(uses) == sent + [last] + [MessageStop];
  }

  /** The event stream of a text turn. */
  function FinalTextEvents(id: string, text: string, inputTokens: u32, outputTokens: u32): seq<StreamEvent> {
    [StartMessage(id, inputTokens), BlockStart(0, OutputContentBlock.Text("")), BlockDelta(0, TextDelta(text)), BlockStop(0),
     MessageDelta(Some("end_turn"), None, UsageOf(inputTokens, outputTokens)), MessageStop]
  }

  method FinalTextSse(codec: Codec, id: string, text: string, inputTokens: u32, outputTokens: u32) returns (body: string)
    ensures body == Encode(codec, FinalTextEvents(id, text, inputTokens, outputTokens))
  {
    hide Encode;
    var first := StartMessage(id, inputTokens);
    var start := BlockStart(0, OutputContentBlock.Text(""));
    var delta := BlockDelta(0, TextDelta(text));
    var last := MessageDelta(Some("end_turn"), None, UsageOf(inputTokens, outputTokens));
    EncodeNothing(codec);
    body := AppendSse(codec, "", first);
    body := AppendSse(codec, body, start);
    EncodeConcat(codec, [first], [start]);
    body := AppendSse(codec, body, delta);
    EncodeConcat(codec, [first] + [start], [delta]);
    body := AppendSse(codec, body, BlockStop(0));
    EncodeConcat(codec, [first] + [start] + [delta], [BlockStop(0)]);
    body := AppendSse(codec, body, last);
    EncodeConcat(codec, [first] + [start] + [delta] + [BlockStop(0)], [last]);
    body := AppendSse(codec, body, MessageStop);
    EncodeConcat(codec, [first] + [start] + [delta] + [BlockStop(0)] + [last], [MessageStop]);
    assert FinalTextEvents(id, text, inputTokens, outputTokens)
        == [first] + [start] + [delta] + [BlockStop(0)] + [last] + [MessageStop];
  }

  lemma EncodeNothing(codec: Codec)
    ensures Encode(codec, []) == ""
  {
  }

  /** The non-streaming answer to the same turn. */
  function ToolMessageResponseMany(id: string, uses: seq<ToolUseMessage>): MessageResponse {
    MessageResponse(
      id, "message", "assistant",
      seq(|uses|, k requires 0 <= k < |uses| => ToolUse(uses[k].toolId, uses[k].toolName, uses[k].input)),
      DEFAULT_MODEL, Some("tool_use"), None, UsageOf(10, 3), None)
  }

  /** The non-streaming answer with a text. */
  function TextMessageResponse(id: string, text: string, inputTokens: u32, outputTokens: u32): MessageResponse {
    MessageResponse(id, "message", "assistant", [OutputContentBlock.Text(text)], DEFAULT_MODEL, Some("end_turn"), None,
                    UsageOf(inputTokens, outputTokens), None)
  }

  /** Each kind of event has its own tag. */
  lemma TagsDistinct(e: StreamEvent, f: StreamEvent)
    ensures EventTag(e) == EventTag(f) ==>
              (e.MessageStart? == f.MessageStart? && e.MessageDelta? == f.MessageDelta? && e.MessageStop? == f.MessageStop?
               && e.BlockStart? == f.BlockStart? && e.BlockDelta? == f.BlockDelta? && e.BlockStop? == f.BlockStop?)
  {
    TagLength(e);
    TagLength(f);
  }

  lemma TagLength(e: StreamEvent)
    ensures |EventTag(e)| == match e
                             case MessageStart(_) => 13 case MessageDelta(_, _, _) => 13 case MessageStop => 12
                             case BlockStart(_, _) => 19 case BlockDelta(_, _) => 19 case BlockStop(_) => 18
    ensures e.MessageStart? || e.BlockStart? ==> EventTag(e)[|EventTag(e)| - 1] == 't'
    ensures e.MessageDelta? || e.BlockDelta? ==> EventTag(e)[|EventTag(e)| - 1] == 'a'
  {
  }
}
