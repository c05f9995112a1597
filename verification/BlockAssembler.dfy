/** Assembling streamed content blocks into one response. */
module BlockAssembler {
  import opened Text
  import opened StreamTypes
  import opened MessageStream

  datatype BlockKind = TextKind | ToolKind(id: string, name: string, json: string)

  /** The assembler's variables: three maps by block index, and the message-level fields. */
  datatype Assembly = Assembly(
    kind: map<u32, BlockKind>, text: map<u32, string>, finished: map<u32, OutputContentBlock>,
    id: string, model: string, stopReason: Option<string>, usage: Usage, sawStop: bool)

  predicate IsEmptyObject(v: Json) {
    v.Object? && v.fields == map[]
  }

  /** A tool block's input: its JSON text parsed, or the text itself under "raw". */
  function DecodedInput(codec: Codec, json: string): Json {
    match codec.parseJson(json)
    case Some(v) => v
    case None => Object(map["raw" := String(json)])
  }

  function GetOr<K, V>(m: map<K, V>, k: K, default: V): V {
    if k in m then m[k] else default
  }

  function StartBlock(codec: Codec, a: Assembly, i: u32, block: OutputContentBlock): Assembly {
    match block
    case Text(t) => a.(kind := a.kind[i := TextKind], text := a.text[i := t])
    case ToolUse(id, name, input) =>
      a.(kind := a.kind[i := ToolKind(id, name, if IsEmptyObject(input) then "" else codec.printJson(input))])
    case Thinking(_, _) => a
    case RedactedThinking(_) => a
  }

  function GrowBlock(a: Assembly, i: u32, delta: Delta): Assembly {
    match delta
    case TextDelta(t) => if t == "" then a else a.(text := a.text[i := GetOr(a.text, i, "") + t])
    case InputJsonDelta(part) =>
      if i in a.kind && a.kind[i].ToolKind?
      then a.(kind := a.kind[i := a.kind[i].(json := a.kind[i].json + part)])
      else a
    case ThinkingDelta(_) => a
    case SignatureDelta(_) => a
  }

  function StopBlock(codec: Codec, a: Assembly, i: u32): Assembly {
    if i !in a.kind then a
    else
      var b := a.(kind := a.kind - {i});
      match a.kind[i]
      case TextKind =>
        var t := GetOr(a.text, i, "");
        b.(text := a.text - {i}, finished := if t == "" then a.finished else a.finished[i := Text(t)])
      case ToolKind(id, name, json) => b.(finished := a.finished[i := ToolUse(id, name, DecodedInput(codec, json))])
  }

  function Step(codec: Codec, a: Assembly, e: StreamEvent): Assembly {
    match e
    case MessageStart(m) => a.(id := m.id, model := m.model)
    case BlockStart(i, block) => StartBlock(codec, a, i, block)
    case BlockDelta(i, delta) => GrowBlock(a, i, delta)
    case BlockStop(i) => StopBlock(codec, a, i)
    case MessageDelta(reason, _, usage) =>
      a.(usage := usage, stopReason := if reason.Some? then reason else a.stopReason)
    case MessageStop => a.(sawStop := true)
  }

  /** All events up to and including the first MessageStop. */
  function Absorb(codec: Codec, a: Assembly, events: seq<StreamEvent>): Assembly
    decreases |events|
  {
    if events == [] || a.sawStop then a else Absorb(codec, Step(codec, a, events[0]), events[1..])
  }

  const NO_USAGE := Usage(0, 0, 0, 0)

  function Fresh(model: string): Assembly {
    Assembly(map[], map[], map[], "stream", model, None, NO_USAGE, false)
  }

  /** The values with index below `n`, in index order. */
  function ValuesBelow(m: map<u32, OutputContentBlock>, n: nat): seq<OutputContentBlock>
    requires n <= 0x1_0000_0000
  {
    if n == 0 then [] else ValuesBelow(m, n - 1) + if n - 1 in m then [m[n - 1]] else []
  }

  /** All values in index order. */
  function Content(m: map<u32, OutputContentBlock>): seq<OutputContentBlock> {
    ValuesBelow(m, 0x1_0000_0000)
  }

  /** The assembled response, the non-streaming fallback, or the stream's error. */
  datatype Outcome = Streamed(response: MessageResponse) | NonStreaming | Failed(error: ApiError)

  function StopReason(a: Assembly, content: seq<OutputContentBlock>): Option<string> {
    if a.stopReason.Some? then a.stopReason
    else if exists b :: b in content && b.ToolUse? then Some("tool_use")
    else Some("end_turn")
  }

  function Conclude(a: Assembly, failure: Option<ApiError>, requestId: Option<string>): Outcome {
    if !a.sawStop then
      match failure
      case Some(error) => Failed(error)
      case None => NonStreaming
    else
      var content := Content(a.finished);
      if content == [] then NonStreaming
      else Streamed(MessageResponse(a.id, "message", "assistant", content, a.model,
                                    StopReason(a, content), None, a.usage, requestId))
  }

  method StreamToMessageResponse(codec: Codec, stream: Stream, model: string, requestId: Option<string>)
    returns (outcome: Outcome)
    requires stream.Valid()
    modifies stream, stream.parser
    ensures var ahead := old(stream.Ahead());
            outcome == Conclude(Absorb(codec, Fresh(model), ahead.events), ahead.failure, requestId)
  {
    hide Content, ValuesBelow, Pull, Absorb;
    var blockKind: map<u32, BlockKind> := map[];
    var textBuf: map<u32, string> := map[];
    var finished: map<u32, OutputContentBlock> := map[];
    var messageId, messageModel := "stream", model;
    var stopReason := None;
    var usage := NO_USAGE;
    var sawStop := false;
    ghost var a := Fresh(model);
    ghost var all := stream.Ahead();
    var over := false;
    while !over
      invariant stream.Valid()
      invariant a == Assembly(blockKind, textBuf, finished, messageId, messageModel, stopReason, usage, sawStop)
      invariant Absorb(codec, a, stream.Ahead().events) == Absorb(codec, Fresh(model), all.events)
      invariant stream.Ahead().failure == all.failure
      invariant over ==> sawStop || (stream.Ahead().events == [] && all.failure == None)
      invariant sawStop ==> over
      decreases !over, |stream.Ahead().events|
    {
      AbsorbStep(codec, a, stream.Ahead().events);
      var next := stream.NextEvent();
      if next.Err? {
        return Failed(next.error);
      }
      if next.value.None? {
        over := true;
      } else {
        a := Step(codec, a, next.value.value);
        match next.value.value
        case MessageStart(message) =>
          messageId, messageModel := message.id, message.model;
        case BlockStart(i, block) =>
          match block {
            case Text(t) =>
              blockKind := blockKind[i := TextKind];
              textBuf := textBuf[i := t];
            case ToolUse(id, name, input) =>
              var json := if IsEmptyObject(input) then "" else codec.printJson(input);
              blockKind := blockKind[i := ToolKind(id, name, json)];
            case Thinking(_, _) =>
            case RedactedThinking(_) =>
          }
        case BlockDelta(i, delta) =>
          match delta {
            case TextDelta(t) =>
              if t != "" {
                textBuf := textBuf[i := GetOr(textBuf, i, "") + t];
              }
            case InputJsonDelta(part) =>
              if i in blockKind && blockKind[i].ToolKind? {
                blockKind := blockKind[i := blockKind[i].(json := blockKind[i].json + part)];
              }
            case ThinkingDelta(_) =>
            case SignatureDelta(_) =>
          }
        case BlockStop(i) =>
          if i in blockKind {
            var kind := blockKind[i];
            blockKind := blockKind - {i};
            match kind {
              case TextKind =>
                var t := GetOr(textBuf, i, "");
                textBuf := textBuf - {i};
                if t != "" {
                  finished := finished[i := Text(t)];
                }
              case ToolKind(id, name, json) =>
                finished := finished[i := ToolUse(id, name, DecodedInput(codec, json))];
            }
          }
        case MessageDelta(reason, _, u) =>
          usage := u;
          stopReason := if reason.Some? then reason else stopReason;
        case MessageStop =>
          sawStop, over := true, true;
      }
    }
    AbsorbStep(codec, a, stream.Ahead().events);
    var assembled := Assembly(blockKind, textBuf, finished, messageId, messageModel, stopReason, usage, sawStop);
    outcome := Conclude(assembled, None, requestId);
  }

  lemma AbsorbStep(codec: Codec, a: Assembly, events: seq<StreamEvent>)
    ensures events == [] || a.sawStop ==> Absorb(codec, a, events) == a
    ensures events != [] && !a.sawStop ==> Absorb(codec, a, events) == Absorb(codec, Step(codec, a, events[0]), events[1..])
  {
  }

  // --- What becomes of one block index ---

  /** The entries of the three maps at one index. */
  datatype Slot = Slot(kind: Option<BlockKind>, text: Option<string>, finished: Option<OutputContentBlock>)

  function At<K, V>(m: map<K, V>, k: K): Option<V> {
    if k in m then Some(m[k]) else None
  }

  function SlotOf(a: Assembly, i: u32): Slot {
    Slot(At(a.kind, i), At(a.text, i), At(a.finished, i))
  }

  predicate Concerns(e: StreamEvent, i: u32) {
    match e
    case BlockStart(j, _) => i == j
    case BlockDelta(j, _) => i == j
    case BlockStop(j) => i == j
    case _ => false
  }

  function Project(events: seq<StreamEvent>, i: u32): seq<StreamEvent> {
    if events == [] then []
    else if Concerns(events[0], i) then [events[0]] + Project(events[1..], i)
    else Project(events[1..], i)
  }

  /** One block's own life, written without any map. */
  function SlotStep(codec: Codec, s: Slot, e: StreamEvent): Slot {
    match e
    case BlockStart(_, Text(t)) => s.(kind := Some(TextKind), text := Some(t))
    case BlockStart(_, ToolUse(id, name, input)) =>
      s.(kind := Some(ToolKind(id, name, if IsEmptyObject(input) then "" else codec.printJson(input))))
    case BlockDelta(_, TextDelta(t)) =>
      if t == "" then s else s.(text := Some((if s.text.Some? then s.text.value else "") + t))
    case BlockDelta(_, InputJsonDelta(part)) =>
      if s.kind.Some? && s.kind.value.ToolKind?
      then s.(kind := Some(s.kind.value.(json := s.kind.value.json + part)))
      else s
    case BlockStop(_) =>
      if s.kind.None? then s
      else
        match s.kind.value {
          case TextKind =>
            var t := if s.text.Some? then s.text.value else "";
            Slot(None, None, if t == "" then s.finished else Some(Text(t)))
          case ToolKind(id, name, json) => Slot(None, s.text, Some(ToolUse(id, name, DecodedInput(codec, json))))
        }
    case _ => s
  }

  function SlotAbsorb(codec: Codec, s: Slot, events: seq<StreamEvent>): Slot
    decreases |events|
  {
    if events == [] then s else SlotAbsorb(codec, SlotStep(codec, s, events[0]), events[1..])
  }

  lemma StartAtIndex(codec: Codec, a: Assembly, j: u32, block: OutputContentBlock, i: u32)
    ensures SlotOf(StartBlock(codec, a, j, block), i) ==
            if i == j then SlotStep(codec, SlotOf(a, i), BlockStart(j, block)) else SlotOf(a, i)
  {
    hide IsEmptyObject;
  }

  lemma GrowAtIndex(codec: Codec, a: Assembly, j: u32, delta: Delta, i: u32)
    ensures SlotOf(GrowBlock(a, j, delta), i) ==
            if i == j then SlotStep(codec, SlotOf(a, i), BlockDelta(j, delta)) else SlotOf(a, i)
  {
  }

  lemma StopAtIndex(codec: Codec, a: Assembly, j: u32, i: u32)
    ensures SlotOf(StopBlock(codec, a, j), i) ==
            if i == j then SlotStep(codec, SlotOf(a, i), BlockStop(j)) else SlotOf(a, i)
  {
    hide DecodedInput;
  }

  lemma StepAtIndex(codec: Codec, a: Assembly, e: StreamEvent, i: u32)
    ensures SlotOf(Step(codec, a, e), i) ==
            if Concerns(e, i) then SlotStep(codec, SlotOf(a, i), e) else SlotOf(a, i)
  {
    hide SlotStep, StartBlock, GrowBlock, StopBlock;
    match e
    case BlockStart(j, block) => StartAtIndex(codec, a, j, block, i);
    case BlockDelta(j, delta) => GrowAtIndex(codec, a, j, delta, i);
    case BlockStop(j) => StopAtIndex(codec, a, j, i);
    case _ =>
  }

  ghost predicate NoStop(events: seq<StreamEvent>) {
    forall e :: e in events ==> !e.MessageStop?
  }

  lemma StepGoesOn(codec: Codec, a: Assembly, e: StreamEvent)
    requires !e.MessageStop?
    ensures Step(codec, a, e).sawStop == a.sawStop
  {
  }

  /** The events up to the message stop: what comes behind it is never read. */
  function BeforeStop(events: seq<StreamEvent>): seq<StreamEvent> {
    if events == [] || events[0].MessageStop? then [] else [events[0]] + BeforeStop(events[1..])
  }

  lemma {:induction false} NothingStops(events: seq<StreamEvent>)
    requires NoStop(events)
    ensures BeforeStop(events) == events
  {
    if events != [] {
      NothingStops(events[1..]);
      assert events == [events[0]] + events[1..];
    }
  }

  /** What the assembler holds at an index is decided by that index's own events before the stop alone. */
  lemma {:induction false} Projection(codec: Codec, a: Assembly, events: seq<StreamEvent>, i: u32)
    requires !a.sawStop
    ensures Absorb(codec, a, events).sawStop <==> !NoStop(events)
    ensures SlotOf(Absorb(codec, a, events), i) == SlotAbsorb(codec, SlotOf(a, i), Project(BeforeStop(events), i))
    decreases |events|
  {
    hide SlotStep, SlotOf, Step, Concerns;
    AbsorbStep(codec, a, events);
    if events != [] {
      var e, rest := events[0], events[1..];
      var b := Step(codec, a, e);
      assert forall x :: x in events <==> x == e || x in rest;
      StepAtIndex(codec, a, e, i);
      if e.MessageStop? {
        StopEnds(codec, a, e, i);
        AbsorbStep(codec, b, rest);
      } else {
        StepGoesOn(codec, a, e);
        Projection(codec, b, rest, i);
        ProjectFirst(e, BeforeStop(rest), i);
      }
    }
  }

  lemma StopEnds(codec: Codec, a: Assembly, e: StreamEvent, i: u32)
    requires e.MessageStop?
    ensures Step(codec, a, e).sawStop && !Concerns(e, i)
  {
  }

  lemma ProjectFirst(e: StreamEvent, rest: seq<StreamEvent>, i: u32)
    ensures Project([e] + rest, i) == if Concerns(e, i) then [e] + Project(rest, i) else Project(rest, i)
    ensures ([e] + Project(rest, i))[1..] == Project(rest, i)
  {
    hide Concerns;
    assert ([e] + rest)[1..] == rest;
  }

  /** Two interleavings of the same per-index event sequences before the stop finish the same blocks. */
  lemma InterleavingInvisible(codec: Codec, model: string, events: seq<StreamEvent>, other: seq<StreamEvent>)
    requires forall i: u32 :: Project(BeforeStop(events), i) == Project(BeforeStop(other), i)
    ensures var f := Absorb(codec, Fresh(model), events).finished;
            var g := Absorb(codec, Fresh(model), other).finished;
            f == g && Content(f) == Content(g)
  {
    hide Content, Absorb, SlotAbsorb, Project;
    var a, b := Absorb(codec, Fresh(model), events), Absorb(codec, Fresh(model), other);
    forall i: u32
      ensures At(a.finished, i) == At(b.finished, i)
    {
      Projection(codec, Fresh(model), events, i);
      Projection(codec, Fresh(model), other, i);
    }
    SameEntries(a.finished, b.finished);
  }

  lemma SameEntries<V>(f: map<u32, V>, g: map<u32, V>)
    requires forall i: u32 :: At(f, i) == At(g, i)
    ensures f == g
  {
    forall i: u32 ensures i in f <==> i in g {
      assert At(f, i) == At(g, i);
    }
    forall i: u32 | i in f ensures f[i] == g[i] {
      assert At(f, i) == At(g, i);
    }
  }

  // --- Well-formed blocks ---

  function TextDeltas(i: u32, parts: seq<string>): seq<StreamEvent> {
    seq(|parts|, k requires 0 <= k < |parts| => BlockDelta(i, TextDelta(parts[k])))
  }

  function JsonDeltas(i: u32, parts: seq<string>): seq<StreamEvent> {
    seq(|parts|, k requires 0 <= k < |parts| => BlockDelta(i, InputJsonDelta(parts[k])))
  }

  lemma {:induction false} TextGrows(codec: Codec, s: Slot, i: u32, parts: seq<string>)
    requires s.text.Some?
    ensures SlotAbsorb(codec, s, TextDeltas(i, parts) + [BlockStop(i)])
            == SlotStep(codec, s.(text := Some(s.text.value + Flatten(parts))), BlockStop(i))
    decreases |parts|
  {
    var events := TextDeltas(i, parts) + [BlockStop(i)];
    if parts == [] {
      assert s.text.value + "" == s.text.value;
      assert events[1..] == [];
    } else {
      assert events[1..] == TextDeltas(i, parts[1..]) + [BlockStop(i)];
      var t := SlotStep(codec, s, events[0]);
      assert s.text.value + parts[0] == t.text.value;
      TextGrows(codec, t, i, parts[1..]);
      assert (s.text.value + parts[0]) + Flatten(parts[1..]) == s.text.value + Flatten(parts);
    }
  }

  lemma {:induction false} JsonGrows(codec: Codec, s: Slot, i: u32, parts: seq<string>)
    requires s.kind.Some? && s.kind.value.ToolKind?
    ensures SlotAbsorb(codec, s, JsonDeltas(i, parts) + [BlockStop(i)])
            == SlotStep(codec, s.(kind := Some(s.kind.value.(json := s.kind.value.json + Flatten(parts)))), BlockStop(i))
    decreases |parts|
  {
    var events := JsonDeltas(i, parts) + [BlockStop(i)];
    if parts == [] {
      assert s.kind.value.json + "" == s.kind.value.json;
      assert events[1..] == [];
    } else {
      assert events[1..] == JsonDeltas(i, parts[1..]) + [BlockStop(i)];
      var t := SlotStep(codec, s, events[0]);
      JsonGrows(codec, t, i, parts[1..]);
      assert (s.kind.value.json + parts[0]) + Flatten(parts[1..]) == s.kind.value.json + Flatten(parts);
    }
  }

  /** A text block is its start text followed by its deltas; an empty one leaves nothing. */
  lemma TextBlock(codec: Codec, s: Slot, i: u32, start: string, parts: seq<string>)
    ensures var t := start + Flatten(parts);
            SlotAbsorb(codec, s, [BlockStart(i, Text(start))] + TextDeltas(i, parts) + [BlockStop(i)]).finished
            == if t == "" then s.finished else Some(Text(t))
  {
    var events := [BlockStart(i, Text(start))] + TextDeltas(i, parts) + [BlockStop(i)];
    assert events[1..] == TextDeltas(i, parts) + [BlockStop(i)];
    TextGrows(codec, SlotStep(codec, s, events[0]), i, parts);
  }

  /** A tool block with an empty start input is the decoding of its JSON deltas. */
  lemma ToolBlock(codec: Codec, s: Slot, i: u32, id: string, name: string, parts: seq<string>)
    ensures SlotAbsorb(codec, s, [BlockStart(i, ToolUse(id, name, Object(map[])))] + JsonDeltas(i, parts) + [BlockStop(i)]).finished
            == Some(ToolUse(id, name, DecodedInput(codec, Flatten(parts))))
  {
    hide DecodedInput;
    var events := [BlockStart(i, ToolUse(id, name, Object(map[])))] + JsonDeltas(i, parts) + [BlockStop(i)];
    assert events[1..] == JsonDeltas(i, parts) + [BlockStop(i)];
    JsonGrows(codec, SlotStep(codec, s, events[0]), i, parts);
    assert "" + Flatten(parts) == Flatten(parts);
  }

  /** A tool block that starts with its whole input is that input. */
  lemma WholeToolBlock(codec: Codec, s: Slot, i: u32, id: string, name: string, input: Json)
    requires Lawful(codec) && !IsEmptyObject(input)
    ensures SlotAbsorb(codec, s, [BlockStart(i, ToolUse(id, name, input)), BlockStop(i)]).finished
            == Some(ToolUse(id, name, input))
  {
    var start := BlockStart(i, ToolUse(id, name, input));
    var t := SlotStep(codec, s, start);
    assert codec.parseJson(codec.printJson(input)) == Some(input);
    assert [start, BlockStop(i)][1..] == [BlockStop(i)] && [BlockStop(i)][1..] == [];
    assert SlotAbsorb(codec, t, [BlockStop(i)]) == SlotStep(codec, t, BlockStop(i));
  }

  // --- The message around the blocks ---

  function Usages(events: seq<StreamEvent>): seq<Usage> {
    if events == [] then []
    else (if events[0].MessageDelta? then [events[0].usage] else []) + Usages(events[1..])
  }

  function Reasons(events: seq<StreamEvent>): seq<string> {
    if events == [] then []
    else
      (if events[0].MessageDelta? && events[0].stopReason.Some? then [events[0].stopReason.value] else [])
      + Reasons(events[1..])
  }

  function Messages(events: seq<StreamEvent>): seq<MessageResponse> {
    if events == [] then []
    else (if events[0].MessageStart? then [events[0].message] else []) + Messages(events[1..])
  }

  function LastOr<T>(s: seq<T>, default: T): T {
    if s == [] then default else s[|s| - 1]
  }

  lemma LastOfMore<T>(x: T, s: seq<T>, default: T)
    ensures LastOr([x] + s, default) == LastOr(s, x) && LastOr([] + s, default) == LastOr(s, default)
  {
  }

  lemma FieldsStep(codec: Codec, a: Assembly, e: StreamEvent)
    ensures var b := Step(codec, a, e);
            && b.usage == (if e.MessageDelta? then e.usage else a.usage)
            && b.stopReason == (if e.MessageDelta? && e.stopReason.Some? then e.stopReason else a.stopReason)
            && b.id == (if e.MessageStart? then e.message.id else a.id)
            && b.model == (if e.MessageStart? then e.message.model else a.model)
  {
  }

  function Optional<T>(s: seq<T>): Option<T> {
    if s == [] then None else Some(s[|s| - 1])
  }

  lemma OptionalMore<T>(x: T, s: seq<T>)
    ensures Optional([x] + s) == if s == [] then Some(x) else Optional(s)
    ensures Optional([] + s) == Optional(s)
  {
    assert [] + s == s;
  }

  /** The last usage and the last stop reason before the stop hold, and the last message start. */
  lemma {:induction false} MessageFields(codec: Codec, a: Assembly, events: seq<StreamEvent>)
    requires !a.sawStop
    ensures var b, t := BeforeStop(events), Absorb(codec, a, events);
            && t.usage == LastOr(Usages(b), a.usage)
            && t.stopReason == (if Reasons(b) == [] then a.stopReason else Optional(Reasons(b)))
            && t.id == (if Messages(b) == [] then a.id else Optional(Messages(b)).value.id)
            && t.model == (if Messages(b) == [] then a.model else Optional(Messages(b)).value.model)
    decreases |events|
  {
    hide Step, LastOr, Optional;
    AbsorbStep(codec, a, events);
    if events == [] {
      assert LastOr<Usage>([], a.usage) == a.usage by {
        NoneLast(a.usage);
      }
    } else {
      var e, rest := events[0], events[1..];
      FieldsStep(codec, a, e);
      if e.MessageStop? {
        NoneLast(a.usage);
        StopEnds(codec, a, e, 0);
        AbsorbStep(codec, Step(codec, a, e), rest);
      } else {
        StepGoesOn(codec, a, e);
        MessageFields(codec, Step(codec, a, e), rest);
        var more := BeforeStop(rest);
        assert ([e] + more)[1..] == more;
        if e.MessageDelta? {
          LastOfMore(e.usage, Usages(more), a.usage);
          if e.stopReason.Some? {
            OptionalMore(e.stopReason.value, Reasons(more));
          }
        }
        if e.MessageStart? {
          OptionalMore(e.message, Messages(more));
        }
        EmptyInFront(Usages(more), Reasons(more), Messages(more));
      }
    }
  }

  lemma NoneLast(u: Usage)
    ensures LastOr<Usage>([], u) == u
  {
  }

  lemma EmptyInFront(us: seq<Usage>, rs: seq<string>, ms: seq<MessageResponse>)
    ensures [] + us == us && [] + rs == rs && [] + ms == ms
  {
  }

  /**
   * A stream that stops without its stop event ends in its error, or falls back when it has none. One that stops
   * with no block left falls back too; any other is the response of its blocks, the last usage and reason, and
   * without a reason that of a tool call if there is one.
   */
  lemma ConcludeMeans(codec: Codec, model: string, events: seq<StreamEvent>, failure: Option<ApiError>, requestId: Option<string>)
    ensures var b, a := BeforeStop(events), Absorb(codec, Fresh(model), events);
            var outcome, content := Conclude(a, failure, requestId), Content(a.finished);
            && (NoStop(events) ==> match failure case Some(e) => outcome == Failed(e) case None => outcome.NonStreaming?)
            && (!NoStop(events) && content == [] ==> outcome.NonStreaming?)
            && (!NoStop(events) && content != [] ==>
                  && outcome.Streamed? && outcome.response.content == content
                  && outcome.response.kind == "message" && outcome.response.role == "assistant"
                  && outcome.response.requestId == requestId && outcome.response.stopSequence == None
                  && outcome.response.usage == LastOr(Usages(b), Usage(0, 0, 0, 0))
                  && outcome.response.id == (if Messages(b) == [] then "stream" else Optional(Messages(b)).value.id)
                  && outcome.response.model == (if Messages(b) == [] then model else Optional(Messages(b)).value.model)
                  && (Reasons(b) != [] ==> outcome.response.stopReason == Optional(Reasons(b)))
                  && (Reasons(b) == [] ==>
                        outcome.response.stopReason == Some(if exists c :: c in content && c.ToolUse? then "tool_use" else "end_turn")))
  {
    hide Absorb, Content, SlotAbsorb, Project, LastOr, Optional, NoStop, BeforeStop;
    Projection(codec, Fresh(model), events, 0);
    MessageFields(codec, Fresh(model), events);
    OptionalSome(Reasons(BeforeStop(events)));
  }

  lemma OptionalSome<T>(s: seq<T>)
    ensures s != [] ==> Optional(s).Some?
  {
  }

  /** Thinking is not assembled: its blocks, its deltas and its signatures change nothing. */
  lemma ThinkingIsIgnored(codec: Codec, a: Assembly, e: StreamEvent)
    requires match e
             case BlockStart(_, block) => block.Thinking? || block.RedactedThinking?
             case BlockDelta(_, delta) => delta.ThinkingDelta? || delta.SignatureDelta?
             case _ => false
    ensures Step(codec, a, e) == a
  {
  }
}
