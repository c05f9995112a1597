/** The stateful event parser: frames become events, and a pull loop delivers them. */
module SseParser {
  import opened Text
  import opened StreamTypes
  import opened SseFraming

  /** Provider and model named in error reports. */
  datatype Context = Context(provider: Option<string>, model: Option<string>)

  datatype Parsed = Event(event: StreamEvent) | Skipped | Malformed(error: ApiError)

  // --- The meaning of one frame ---

  predicate IsComment(line: string) {
    StartsWith(line, ":")
  }

  predicate IsEventLine(line: string) {
    !IsComment(line) && StartsWith(line, "event:")
  }

  predicate IsDataLine(line: string) {
    !IsComment(line) && !StartsWith(line, "event:") && StartsWith(line, "data:")
  }

  /** The name on the last event line. */
  function EventName(lines: seq<string>): Option<string> {
    if lines == [] then None
    else
      var line := lines[|lines| - 1];
      if IsEventLine(line) then Some(Trim(line[6..])) else EventName(lines[..|lines| - 1])
  }

  /** The payloads of the data lines, in order. */
  function DataLines(lines: seq<string>): seq<string> {
    if lines == [] then []
    else
      var line := lines[|lines| - 1];
      DataLines(lines[..|lines| - 1]) + if IsDataLine(line) then [TrimStart(line[5..])] else []
  }

  lemma OneMoreLine(lines: seq<string>, i: nat)
    requires i < |lines|
    ensures EventName(lines[..i + 1]) ==
            if IsEventLine(lines[i]) then Some(Trim(lines[i][6..])) else EventName(lines[..i])
    ensures DataLines(lines[..i + 1]) ==
            DataLines(lines[..i]) + if IsDataLine(lines[i]) then [TrimStart(lines[i][5..])] else []
  {
    hide Trim, TrimStart;
    assert lines[..i + 1][..i] == lines[..i];
  }

  function OrUnknown(name: Option<string>): string {
    match name
    case Some(n) => n
    case None => "unknown"
  }

  function Interpret(codec: Codec, context: Context, name: Option<string>, data: seq<string>): Parsed {
    if name == Some("ping") || data == [] then Skipped
    else
      var payload := Join(data);
      if payload == "[DONE]" then Skipped
      else
        match codec.parseEvent(payload)
        case Some(e) => Event(e)
        case None => Malformed(JsonDeserialize(OrUnknown(context.provider), OrUnknown(context.model), payload))
  }

  function FrameMeaning(codec: Codec, context: Context, frame: string): Parsed {
    var trimmed := Trim(frame);
    if trimmed == "" then Skipped
    else Interpret(codec, context, EventName(Lines(trimmed)), DataLines(Lines(trimmed)))
  }

  lemma NoLines()
    ensures EventName([]) == None && DataLines([]) == []
  {
  }

  method ParseFrame(codec: Codec, context: Context, frame: string) returns (r: Parsed)
    ensures r == FrameMeaning(codec, context, frame)
  {
    hide Trim, TrimStart, Lines, EventName, DataLines, Join;
    var trimmed := Trim(frame);
    if trimmed == "" {
      return Skipped;
    }
    var dataLines: seq<string> := [];
    var eventName := None;
    var lines := Lines(trimmed);
    assert EventName(lines[..0]) == None && DataLines(lines[..0]) == [] by {
      NoLines();
    }
    for i := 0 to |lines|
      invariant eventName == EventName(lines[..i])
      invariant dataLines == DataLines(lines[..i])
    {
      var line := lines[i];
      OneMoreLine(lines, i);
      if StartsWith(line, ":") {
        continue;
      }
      if StartsWith(line, "event:") {
        eventName := Some(Trim(line[6..]));
        continue;
      }
      if StartsWith(line, "data:") {
        dataLines := dataLines + [TrimStart(line[5..])];
      }
    }
    assert lines[..|lines|] == lines;
    r := Interpret(codec, context, eventName, dataLines);
  }

  // --- The meaning of a buffer ---

  datatype Consumed = Consumed(events: Result<seq<StreamEvent>, ApiError>, rest: seq<byte>)

  function Prepend(es: seq<StreamEvent>, c: Consumed): Consumed {
    if c.events.Ok? then Consumed(Ok(es + c.events.value), c.rest) else c
  }

  function BytesMeaning(codec: Codec, context: Context, bytes: seq<byte>): Parsed {
    FrameMeaning(codec, context, codec.lossy(bytes))
  }

  /** What one `push` returns and leaves: a malformed frame discards the events before it. */
  function Consume(codec: Codec, context: Context, b: seq<byte>): Consumed
    decreases |b|
  {
    match NextSeparator(b)
    case None => Consumed(Ok([]), b)
    case Some(s) =>
      match BytesMeaning(codec, context, FirstPiece(b, s).frame)
      case Malformed(error) => Consumed(Err(error), After(b, s))
      case Skipped => Consume(codec, context, After(b, s))
      case Event(e) => Prepend([e], Consume(codec, context, After(b, s)))
  }

  lemma ConsumeStep(codec: Codec, context: Context, b: seq<byte>)
    ensures Consume(codec, context, b) ==
            match NextSeparator(b)
            case None => Consumed(Ok([]), b)
            case Some(s) =>
              match BytesMeaning(codec, context, FirstPiece(b, s).frame)
              case Malformed(error) => Consumed(Err(error), After(b, s))
              case Skipped => Consume(codec, context, After(b, s))
              case Event(e) => Prepend([e], Consume(codec, context, After(b, s)))
  {
    hide NextSeparator, FirstPiece, After, BytesMeaning, Prepend;
  }

  lemma PrependNothing(c: Consumed)
    ensures Prepend([], c) == c
  {
    assert c.events.Ok? ==> [] + c.events.value == c.events.value;
  }

  lemma PrependTwice(es: seq<StreamEvent>, e: StreamEvent, c: Consumed)
    ensures Prepend(es, Prepend([e], c)) == Prepend(es + [e], c)
  {
    assert c.events.Ok? ==> es + ([e] + c.events.value) == (es + [e]) + c.events.value;
  }

  lemma PrependDone(es: seq<StreamEvent>, rest: seq<byte>)
    ensures Prepend(es, Consumed(Ok([]), rest)) == Consumed(Ok(es), rest)
  {
    assert es + [] == es;
  }

  lemma PrependFailed(es: seq<StreamEvent>, error: ApiError, rest: seq<byte>)
    ensures Prepend(es, Consumed(Err(error), rest)) == Consumed(Err(error), rest)
  {
  }

  class Parser {
    var buffer: seq<byte>
    const codec: Codec
    const context: Context

    constructor (codec: Codec, context: Context)
      ensures buffer == [] && this.codec == codec && this.context == context
    {
      buffer := [];
      this.codec := codec;
      this.context := context;
    }

    method NextFrame() returns (frame: Option<string>)
      modifies this`buffer
      ensures match NextSeparator(old(buffer))
              case None => frame == None && buffer == old(buffer)
              case Some(s) =>
                && frame == Some(codec.lossy(FirstPiece(old(buffer), s).frame))
                && buffer == After(old(buffer), s)
    {
      var separator := NextSeparator(buffer);
      if separator.None? {
        return None;
      }
      var Separator(position, length) := separator.value;
      var drained := buffer[..position + length];
      buffer := buffer[position + length..];
      assert drained[..position] == old(buffer)[..position];
      frame := Some(codec.lossy(drained[..|drained| - length]));
    }

    method Push(chunk: seq<byte>) returns (r: Result<seq<StreamEvent>, ApiError>)
      modifies this`buffer
      ensures Consumed(r, buffer) == Consume(codec, context, old(buffer) + chunk)
    {
      hide Consume, Prepend, NextSeparator, FirstPiece, After, FrameMeaning;
      buffer := buffer + chunk;
      var events: seq<StreamEvent> := [];
      ghost var goal := Consume(codec, context, buffer);
      PrependNothing(goal);
      while true
        invariant goal == Prepend(events, Consume(codec, context, buffer))
        decreases |buffer|
      {
        ConsumeStep(codec, context, buffer);
        var frame := NextFrame();
        if frame.None? {
          break;
        }
        var parsed := ParseFrame(codec, context, frame.value);
        if parsed.Malformed? {
          PrependFailed(events, parsed.error, buffer);
          return Err(parsed.error);
        }
        if parsed.Event? {
          PrependTwice(events, parsed.event, Consume(codec, context, buffer));
          events := events + [parsed.event];
        }
      }
      PrependDone(events, buffer);
      r := Ok(events);
    }

    method Finish() returns (r: Result<seq<StreamEvent>, ApiError>)
      modifies this`buffer
      ensures buffer == []
      ensures r == FinishMeaning(codec, context, old(buffer))
    {
      hide FrameMeaning;
      if buffer == [] {
        return Ok([]);
      }
      var trailing := buffer;
      buffer := [];
      var parsed := ParseFrame(codec, context, codec.lossy(trailing));
      match parsed
      case Event(e) => r := Ok([e]);
      case Skipped => r := Ok([]);
      case Malformed(error) => r := Err(error);
    }
  }

  /** What `finish` makes of the bytes still buffered. */
  function FinishMeaning(codec: Codec, context: Context, b: seq<byte>): Result<seq<StreamEvent>, ApiError> {
    if b == [] then Ok([])
    else
      match BytesMeaning(codec, context, b)
      case Event(e) => Ok([e])
      case Skipped => Ok([])
      case Malformed(error) => Err(error)
  }

  // --- Frames and events ---

  ghost predicate AllParse(codec: Codec, context: Context, frames: seq<seq<byte>>) {
    forall f :: f in frames ==> !BytesMeaning(codec, context, f).Malformed?
  }

  /** The events of the frames that carry one. */
  function Events(codec: Codec, context: Context, frames: seq<seq<byte>>): seq<StreamEvent> {
    if frames == [] then []
    else
      var first := BytesMeaning(codec, context, frames[0]);
      var later := Events(codec, context, frames[1..]);
      if first.Event? then [first.event] + later else later
  }

  /** A push whose frames all parse returns their events and keeps what framing keeps. */
  lemma {:induction false} ConsumeIsDrain(codec: Codec, context: Context, b: seq<byte>)
    requires AllParse(codec, context, Frames(Drain(b).pieces))
    ensures Consume(codec, context, b) == Consumed(Ok(Events(codec, context, Frames(Drain(b).pieces))), Drain(b).rest)
    decreases |b|
  {
    hide NextSeparator, Drain, Consume, BytesMeaning, FirstPiece, After;
    ConsumeStep(codec, context, b);
    match NextSeparator(b)
    case None => DrainNothing(b);
    case Some(s) =>
      DrainHead(b, s);
      var t := After(b, s);
      var all := Frames(Drain(b).pieces);
      assert Drain(b).pieces[1..] == Drain(t).pieces;
      assert all[0] == FirstPiece(b, s).frame && all[1..] == Frames(Drain(t).pieces);
      ConsumeIsDrain(codec, context, t);
  }

  /** A push succeeds exactly when every frame it completes parses. */
  lemma {:induction false} ConsumeOkIff(codec: Codec, context: Context, b: seq<byte>)
    ensures Consume(codec, context, b).events.Ok? <==> AllParse(codec, context, Frames(Drain(b).pieces))
    decreases |b|
  {
    hide NextSeparator, Drain, Consume, BytesMeaning, FirstPiece, After;
    ConsumeStep(codec, context, b);
    match NextSeparator(b)
    case None => DrainNothing(b);
    case Some(s) =>
      DrainHead(b, s);
      var frames := Frames(Drain(b).pieces);
      assert Drain(b).pieces[1..] == Drain(After(b, s)).pieces;
      assert frames == [FirstPiece(b, s).frame] + Frames(Drain(After(b, s)).pieces);
      ConsumeOkIff(codec, context, After(b, s));
  }

  /** Even a failing push loses no bytes: it stops right behind some frame. */
  lemma {:induction false} ConsumeConserves(codec: Codec, context: Context, b: seq<byte>) returns (k: nat)
    ensures k <= |Drain(b).pieces|
    ensures Reassemble(Drain(b).pieces[..k]) + Consume(codec, context, b).rest == b
    decreases |b|
  {
    hide NextSeparator, Drain, Consume, BytesMeaning, FirstPiece, After;
    ConsumeStep(codec, context, b);
    match NextSeparator(b)
    case None =>
      DrainNothing(b);
      k := 0;
    case Some(s) =>
      DrainHead(b, s);
      var piece, t := FirstPiece(b, s), After(b, s);
      PieceAndAfter(b, s);
      var pieces := Drain(b).pieces;
      if BytesMeaning(codec, context, piece.frame).Malformed? {
        k := 1;
        assert pieces[..1] == [piece];
        assert Reassemble([piece]) == piece.frame + piece.separator;
      } else {
        var k' := ConsumeConserves(codec, context, t);
        k := k' + 1;
        assert pieces[..k] == [piece] + Drain(t).pieces[..k'];
        ReassembleCons(piece, Drain(t).pieces[..k']);
      }
  }

  lemma PieceAndAfter(b: seq<byte>, s: Separator)
    requires Fits(s, b)
    ensures FirstPiece(b, s).frame + FirstPiece(b, s).separator + After(b, s) == b
  {
  }

  lemma ReassembleCons(piece: Piece, pieces: seq<Piece>)
    ensures Reassemble([piece] + pieces) == piece.frame + piece.separator + Reassemble(pieces)
  {
    assert ([piece] + pieces)[1..] == pieces;
  }
}
