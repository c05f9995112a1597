/** What a frame says, line by line, and streams with frames that say nothing in between. */
module FrameReading {
  import opened Text
  import opened StreamTypes
  import opened SseFraming
  import opened SseParser
  import opened MessageStream
  import opened Delivery
  import opened MockService
  import opened StreamPipeline

  // --- Lines ---

  datatype Line = Comment(text: string) | Named(text: string) | Payload(text: string)

  function Prefix(l: Line): (r: string)
    ensures r != "" && !IsWhitespace(r[0]) && !IsWhitespace(r[|r| - 1]) && OneLine(r)
  {
    match l
    case Comment(_) => ":"
    case Named(_) => "event:"
    case Payload(_) => "data:"
  }

  function Body(l: Line): string {
    if l.Comment? then l.text else " " + l.text
  }

  /** The line as a provider writes it. */
  function Print(l: Line): string {
    Prefix(l) + Body(l)
  }

  /** Lines end in LF, or in CR LF. */
  datatype Ending = Lf | CrLf

  function Ended(line: string, ending: Ending): string {
    if ending.CrLf? then line + "\r" else line
  }

  function PrintAll(ls: seq<Line>, ending: Ending): (r: seq<string>)
    ensures |r| == |ls| && forall i :: 0 <= i < |ls| ==> r[i] == Ended(Print(ls[i]), ending)
  {
    if ls == [] then [] else [Ended(Print(ls[0]), ending)] + PrintAll(ls[1..], ending)
  }

  function FrameOf(ls: seq<Line>, ending: Ending): string {
    Join(PrintAll(ls, ending))
  }

  predicate Plain(l: Line) {
    OneLine(l.text) && (!l.Comment? ==> IsTrimmed(l.text))
  }

  predicate AllPlain(ls: seq<Line>) {
    forall i :: 0 <= i < |ls| ==> Plain(ls[i])
  }

  /** The payloads of a frame, in order. */
  function Payloads(ls: seq<Line>): seq<string> {
    if ls == [] then []
    else Payloads(ls[..|ls| - 1]) + if ls[|ls| - 1].Payload? then [ls[|ls| - 1].text] else []
  }

  /** The last name a frame gives itself. */
  ghost predicate IsNamed(ls: seq<Line>, name: string) {
    exists i :: 0 <= i < |ls| && ls[i] == Named(name) && forall j :: i < j < |ls| ==> !ls[j].Named?
  }

  // --- Trimming a frame trims the end of its last line ---

  lemma {:induction false} TrimEndBehind(a: string, b: string)
    requires TrimEnd(b) != ""
    ensures TrimEnd(a + b) == a + TrimEnd(b)
  {
    hide IsWhitespace;
    if IsWhitespace(b[|b| - 1]) {
      var c := b[..|b| - 1];
      assert (a + b)[..|a + b| - 1] == a + c;
      TrimEndBehind(a, c);
    }
  }

  lemma TrimEndOneLine(s: string)
    requires OneLine(s)
    ensures OneLine(TrimEnd(s))
  {
    hide TrimEnd;
    TrimEndIsPrefix(s);
  }

  /** Lines that are printed behind each other are read again, the last one without space at its end. */
  lemma LinesRead(lines: seq<string>)
    requires lines != [] && AllOneLine(lines)
    requires lines[0] != "" && !IsWhitespace(lines[0][0]) && TrimEnd(lines[|lines| - 1]) != ""
    ensures var n := |lines| - 1;
            var read := Lines(Trim(Join(lines)));
            && Trim(Join(lines)) != "" && |read| == |lines| && read[n] == TrimEnd(lines[n])
            && forall i :: 0 <= i < n ==> read[i] == StripCr(lines[i])
  {
    hide TrimEnd, SplitLf, IsWhitespace, TrimStart, StripCr;
    var n := |lines| - 1;
    var last := TrimEnd(lines[n]);
    var kept := lines[..n] + [last];
    TrimmedJoin(lines);
    TrimEndOneLine(lines[n]);
    SplitJoin(kept);
    assert kept[..n] == lines[..n];
  }

  lemma JoinStart(lines: seq<string>)
    requires lines != [] && lines[0] != ""
    ensures Join(lines) != "" && Join(lines)[0] == lines[0][0]
  {
  }

  lemma TrimmedJoin(lines: seq<string>)
    requires lines != []
    requires lines[0] != "" && !IsWhitespace(lines[0][0]) && TrimEnd(lines[|lines| - 1]) != ""
    ensures Trim(Join(lines)) == Join(lines[..|lines| - 1] + [TrimEnd(lines[|lines| - 1])])
    ensures Trim(Join(lines)) != ""
  {
    hide TrimEnd, IsWhitespace, Join;
    var n := |lines| - 1;
    var front, l := lines[..n], lines[n];
    JoinStart(lines);
    TrimStartTrimmed(Join(lines));
    JoinOne(l);
    JoinOne(TrimEnd(l));
    if n == 0 {
      assert lines == [l] && front + [TrimEnd(l)] == [TrimEnd(l)];
    } else {
      JoinConcat(front, [l]);
      JoinConcat(front, [TrimEnd(l)]);
      assert front + [l] == lines;
      TrimEndBehind(Join(front) + "\n", l);
    }
  }

  lemma JoinOne(l: string)
    ensures Join([l]) == l
  {
  }

  // --- Reading a line ---

  /** What the parser's loop takes from a line. */
  ghost predicate ReadsAs(line: string, l: Line) {
    match l
    case Comment(_) => IsComment(line)
    case Named(name) => IsEventLine(line) && Trim(line[6..]) == name
    case Payload(p) => IsDataLine(line) && TrimStart(line[5..]) == p
  }

  lemma KindOf(l: Line, body: string)
    ensures var line := Prefix(l) + body;
            && line[|Prefix(l)|..] == body
            && IsComment(line) == l.Comment? && IsEventLine(line) == l.Named? && IsDataLine(line) == l.Payload?
  {
    var line := Prefix(l) + body;
    assert line[..|Prefix(l)|] == Prefix(l);
    assert line[0] == Prefix(l)[0];
    if l.Payload? && StartsWith(line, "event:") {
      FirstOfPrefix(line, "event:");
      assert false;
    }
  }

  lemma FirstOfPrefix(line: string, prefix: string)
    requires prefix != "" && StartsWith(line, prefix)
    ensures line != "" && line[0] == prefix[0]
  {
    assert line[..|prefix|][0] == prefix[0];
  }

  lemma TrimmedBody(t: string)
    requires IsTrimmed(t)
    ensures TrimStart(" " + t) == t && Trim(" " + t) == t && StripCr(" " + t) == " " + t
    ensures TrimStart(TrimEnd(" " + t)) == t && Trim(TrimEnd(" " + t)) == t
  {
    hide IsWhitespace;
    assert (" " + t)[1..] == t;
    assert IsWhitespace(' ') && IsWhitespace('\r') by {
      SpacesAreSpace();
    }
    if t == "" {
      SpaceAlone();
    } else {
      TrimStartTrimmed(t);
      TrimTrimmed(t);
    }
  }

  lemma SpacesAreSpace()
    ensures IsWhitespace(' ') && IsWhitespace('\r')
  {
  }

  lemma SpaceAlone()
    ensures TrimEnd(" ") == "" && TrimStart(" ") == "" && Trim(" ") == "" && TrimStart("") == "" && Trim("") == ""
  {
  }

  /** Whether its end is trimmed or only a CR dropped: the printed line reads as itself. */
  lemma PrintedReads(l: Line)
    requires Plain(l)
    ensures ReadsAs(Print(l), l) && ReadsAs(StripCr(Print(l)), l) && ReadsAs(TrimEnd(Print(l)), l)
    ensures OneLine(Print(l)) && TrimEnd(Print(l)) != ""
    ensures Print(l) != "" && !IsWhitespace(Print(l)[0])
  {
    hide TrimEnd, TrimStart, Trim, IsWhitespace, IsComment, IsEventLine, IsDataLine;
    TrimEndBehindInk(Prefix(l), Body(l));
    StripCrBehind(Prefix(l), Body(l));
    KindOf(l, TrimEnd(Body(l)));
    KindOf(l, StripCr(Body(l)));
    KindOf(l, Body(l));
    if !l.Comment? {
      TrimmedBody(l.text);
    }
  }

  lemma EndedReads(l: Line, ending: Ending)
    requires Plain(l)
    ensures var line := Ended(Print(l), ending);
            && ReadsAs(StripCr(line), l) && ReadsAs(TrimEnd(line), l) && OneLine(line) && TrimEnd(line) != ""
            && line != "" && !IsWhitespace(line[0])
  {
    hide ReadsAs, Print, IsWhitespace, Plain;
    PrintedReads(l);
    var x := Print(l);
    if ending.CrLf? {
      SpacesAreSpace();
      assert (x + "\r")[..|x|] == x;
    }
  }

  lemma StripCrBehind(a: string, b: string)
    requires a != "" && !IsWhitespace(a[|a| - 1])
    ensures StripCr(a + b) == a + StripCr(b)
  {
    if b != "" {
      assert (a + b)[..|a + b| - 1] == a + b[..|b| - 1];
    } else {
      assert a + b == a;
    }
  }

  lemma PrintedFrameReads(ls: seq<Line>, ending: Ending)
    requires ls != [] && AllPlain(ls)
    ensures Trim(FrameOf(ls, ending)) != "" && |Lines(Trim(FrameOf(ls, ending)))| == |ls|
    ensures forall i :: 0 <= i < |ls| ==> ReadsAs(Lines(Trim(FrameOf(ls, ending)))[i], ls[i])
  {
    hide Lines, Trim, TrimEnd, ReadsAs, Print, Ended, Join, StripCr, IsWhitespace, Plain, OneLine;
    var lines := PrintAll(ls, ending);
    forall i | 0 <= i < |ls|
      ensures ReadsAs(StripCr(lines[i]), ls[i]) && ReadsAs(TrimEnd(lines[i]), ls[i]) && OneLine(lines[i])
    {
      EndedReads(ls[i], ending);
    }
    EndedReads(ls[0], ending);
    EndedReads(ls[|ls| - 1], ending);
    LinesRead(lines);
  }

  // --- Reading the lines of a frame ---

  lemma {:induction false} LinesSay(lines: seq<string>, ls: seq<Line>)
    requires |lines| == |ls| && forall i :: 0 <= i < |ls| ==> ReadsAs(lines[i], ls[i])
    ensures DataLines(lines) == Payloads(ls)
    ensures forall name :: EventName(lines) == Some(name) <==> IsNamed(ls, name)
  {
    hide ReadsAs, IsNamed, DataLines, EventName;
    if ls == [] {
      NoLines();
      NobodyNamed();
    } else {
      var n := |ls| - 1;
      LinesSay(lines[..n], ls[..n]);
      assert lines[..n + 1] == lines;
      OneMoreLine(lines, n);
      LineSays(lines[n], ls[n]);
      forall name
        ensures EventName(lines) == Some(name) <==> IsNamed(ls, name)
      {
        NamedStep(ls, name);
      }
    }
  }

  lemma NobodyNamed()
    ensures forall name :: !IsNamed([], name)
  {
  }

  lemma LineSays(line: string, l: Line)
    requires ReadsAs(line, l)
    ensures IsEventLine(line) <==> l.Named?
    ensures IsDataLine(line) <==> l.Payload?
    ensures l.Named? ==> Trim(line[6..]) == l.text
    ensures l.Payload? ==> TrimStart(line[5..]) == l.text
  {
    hide Trim, TrimStart, StartsWith;
  }

  lemma NamedStep(ls: seq<Line>, name: string)
    requires ls != []
    ensures var n := |ls| - 1;
            IsNamed(ls, name) <==> if ls[n].Named? then ls[n].text == name else IsNamed(ls[..n], name)
  {
    var n := |ls| - 1;
    if ls[n].Named? {
      if ls[n].text == name {
        assert ls[n] == Named(name);
      }
    } else {
      var front := ls[..n];
      if IsNamed(front, name) {
        var i :| 0 <= i < n && front[i] == Named(name) && forall j :: i < j < n ==> !front[j].Named?;
        assert ls[i] == Named(name);
        assert forall j :: i < j < n ==> ls[j] == front[j];
      }
      if IsNamed(ls, name) {
        var i :| 0 <= i < |ls| && ls[i] == Named(name) && forall j :: i < j < |ls| ==> !ls[j].Named?;
        assert front[i] == Named(name);
      }
    }
  }

  /**
   * A frame says what its lines say: nothing when its last name is `ping`, when it has no payload, or when its
   * payloads joined are `[DONE]`; otherwise the event its payloads joined spell, or that they spell none.
   */
  lemma FrameReads(codec: Codec, context: Context, ls: seq<Line>, ending: Ending)
    requires AllPlain(ls)
    ensures var payload := Join(Payloads(ls));
            var m := FrameMeaning(codec, context, FrameOf(ls, ending));
            if IsNamed(ls, "ping") || Payloads(ls) == [] || payload == "[DONE]" then m.Skipped?
            else
              match codec.parseEvent(payload)
              case Some(e) => m == Event(e)
              case None => m.Malformed? && m.error.payload == payload
                           && (context.provider.Some? ==> m.error.provider == context.provider.value)
                           && (context.model.Some? ==> m.error.model == context.model.value)
  {
    hide Lines, Trim, TrimEnd, ReadsAs, PrintAll, Join, IsNamed, EventName, DataLines, AllPlain;
    if ls == [] {
      NobodyNamed();
      EmptyFrame(ending);
    } else {
      PrintedFrameReads(ls, ending);
      LinesSay(Lines(Trim(FrameOf(ls, ending))), ls);
    }
  }

  lemma EmptyFrame(ending: Ending)
    ensures Trim(FrameOf([], ending)) == ""
  {
  }

  function DataLine(payload: string): string {
    "data: " + payload
  }

  function AsPayloads(ps: seq<string>): (r: seq<Line>)
    ensures |r| == |ps| && forall i :: 0 <= i < |ps| ==> r[i] == Payload(ps[i])
  {
    if ps == [] then [] else [Payload(ps[0])] + AsPayloads(ps[1..])
  }

  lemma DataLinePrinted(payload: string)
    ensures Print(Payload(payload)) == DataLine(payload)
  {
    assert "data:" + (" " + payload) == "data: " + payload;
  }

  /** Payload lines alone mean the event that their payloads, joined, parse to. */
  lemma PayloadsAreJoined(codec: Codec, context: Context, ps: seq<string>, lines: seq<string>, e: StreamEvent)
    requires ps != [] && forall i :: 0 <= i < |ps| ==> OneLine(ps[i]) && IsTrimmed(ps[i])
    requires |lines| == |ps| && forall i :: 0 <= i < |ps| ==> lines[i] == DataLine(ps[i])
    requires codec.parseEvent(Join(ps)) == Some(e) && Join(ps) != "[DONE]"
    ensures FrameMeaning(codec, context, Join(lines)) == Event(e)
  {
    hide FrameMeaning, Join, IsTrimmed, OneLine, IsNamed, Payloads, Print, DataLine;
    var ls := AsPayloads(ps);
    PayloadsOnly(ls, ps);
    FrameReads(codec, context, ls, Lf);
    forall i | 0 <= i < |ps|
      ensures PrintAll(ls, Lf)[i] == lines[i]
    {
      DataLinePrinted(ps[i]);
    }
    assert lines == PrintAll(ls, Lf);
  }

  lemma {:induction false} PayloadsOnly(ls: seq<Line>, ps: seq<string>)
    requires |ls| == |ps| && forall i :: 0 <= i < |ps| ==> ls[i] == Payload(ps[i])
    ensures Payloads(ls) == ps && forall name :: !IsNamed(ls, name)
  {
    if ls != [] {
      var n := |ls| - 1;
      PayloadsOnly(ls[..n], ps[..n]);
      assert ps[..n] + [ps[n]] == ps;
    }
  }

  // --- Frames that say nothing ---

  /** A line that starts with one of the prefixes still does without its end. */
  lemma PrefixStays(l: Line, line: string)
    requires StartsWith(line, Prefix(l))
    ensures StartsWith(StripCr(line), Prefix(l)) && StartsWith(TrimEnd(line), Prefix(l))
    ensures TrimEnd(line) != "" && !IsWhitespace(line[0])
  {
    hide TrimEnd, StripCr, IsWhitespace;
    var p, body := Prefix(l), line[|Prefix(l)|..];
    assert line == p + body;
    TrimEndBehindInk(p, body);
    StripCrBehind(p, body);
    assert (p + TrimEnd(body))[..|p|] == p && (p + StripCr(body))[..|p|] == p;
  }

  predicate SaysNothing(line: string) {
    StartsWith(line, ":") || StartsWith(line, "event:")
  }

  lemma SilenceStays(line: string)
    requires SaysNothing(line)
    ensures SaysNothing(StripCr(line)) && SaysNothing(TrimEnd(line))
    ensures TrimEnd(line) != "" && line != "" && !IsWhitespace(line[0])
  {
    hide TrimEnd, StripCr, IsWhitespace, StartsWith;
    assert StartsWith(line, ":") ==> line != "" by {
      EmptyHasNoStart();
    }
    assert StartsWith(line, "event:") ==> line != "" by {
      EmptyHasNoStart();
    }
    if StartsWith(line, ":") {
      PrefixStays(Comment(""), line);
    } else {
      PrefixStays(Named(""), line);
    }
  }

  lemma EmptyHasNoStart()
    ensures !StartsWith("", ":") && !StartsWith("", "event:")
  {
  }

  lemma {:induction false} NothingSaid(lines: seq<string>)
    requires forall i :: 0 <= i < |lines| ==> SaysNothing(lines[i])
    ensures DataLines(lines) == []
  {
    hide TrimStart, StartsWith;
    if lines != [] {
      NothingSaid(lines[..|lines| - 1]);
      assert !IsDataLine(lines[|lines| - 1]);
    }
  }

  /** Comments and names alone carry no event. */
  lemma SilentFrame(codec: Codec, context: Context, lines: seq<string>)
    requires AllOneLine(lines) && forall i :: 0 <= i < |lines| ==> SaysNothing(lines[i])
    ensures FrameMeaning(codec, context, Join(lines)).Skipped?
  {
    hide Lines, Trim, TrimEnd, Join, EventName, DataLines, SaysNothing, StripCr, IsWhitespace, AllOneLine;
    if lines == [] {
      EmptyFrame(Lf);
      assert Join(PrintAll([], Lf)) == Join([]);
    } else {
      forall i | 0 <= i < |lines|
        ensures SaysNothing(StripCr(lines[i])) && SaysNothing(TrimEnd(lines[i]))
      {
        SilenceStays(lines[i]);
      }
      SilenceStays(lines[0]);
      SilenceStays(lines[|lines| - 1]);
      LinesRead(lines);
      NothingSaid(Lines(Trim(Join(lines))));
    }
  }

  const PING := "event: ping"

  function PingFrame(payload: string): string {
    PING + "\n" + ("data: " + payload)
  }

  /** A ping says nothing, whatever its payload is. */
  lemma PingIsSkipped(codec: Codec, context: Context, payload: string)
    requires OneLine(payload)
    ensures FrameMeaning(codec, context, PingFrame(payload)).Skipped?
  {
    hide Lines, Trim, TrimEnd, EventName, DataLines, StripCr, IsWhitespace, IsEventLine, Join, PING;
    var last := "data: " + payload;
    var lines := [PING, last];
    assert last[..5] == "data:";
    PrefixStays(Payload(""), last);
    PingRead();
    TwoJoined(PING, last);
    assert OneLine(last);
    LinesRead(lines);
    var read := Lines(Trim(Join(lines)));
    assert read[..2] == read;
    OneMoreLine(read, 1);
    OneMoreLine(read, 0);
    KindOf(Payload(""), TrimEnd(last)[5..]);
    assert TrimEnd(last) == "data:" + TrimEnd(last)[5..];
  }

  lemma TwoJoined(a: string, b: string)
    ensures Join([a, b]) == a + "\n" + b
  {
    assert [a, b][1..] == [b];
  }

  lemma PingRead()
    ensures PING != "" && StripCr(PING) == PING && IsEventLine(PING) && Trim(PING[6..]) == "ping" && OneLine(PING) && !IsWhitespace(PING[0])
  {
    HeaderLine("ping");
    TagIsPing();
    assert PING == "event: " + "ping";
    TrimAfterSpace("ping");
  }

  lemma TagIsPing()
    ensures Trim("ping") == "ping"
  {
    TrimTrimmed("ping");
  }

  const DONE := "data: [DONE]"

  lemma DoneIsSkipped(codec: Codec, context: Context)
    ensures FrameMeaning(codec, context, DONE).Skipped?
  {
    hide FrameMeaning;
    var ls := [Payload("[DONE]")];
    PayloadsOnly(ls, ["[DONE]"]);
    FrameReads(codec, context, ls, Lf);
    assert FrameOf(ls, Lf) == DONE;
  }

  // --- Streams with silent frames between the events ---

  /** What a provider writes between two blank lines. */
  datatype Item = Sent(event: StreamEvent) | Ping(payload: string) | Note(text: string) | Done

  function ItemText(codec: Codec, item: Item): string {
    match item
    case Sent(e) => FrameText(codec, e)
    case Ping(payload) => PingFrame(payload)
    case Note(text) => ":" + text
    case Done => DONE
  }

  predicate SafeItem(item: Item) {
    match item
    case Ping(payload) => OneLine(payload) && '\r' !in payload
    case Note(text) => OneLine(text) && '\r' !in text
    case _ => true
  }

  predicate SafeItems(items: seq<Item>) {
    forall item :: item in items ==> SafeItem(item)
  }

  function WriteItems(codec: Codec, items: seq<Item>): string {
    if items == [] then "" else ItemText(codec, items[0]) + "\n\n" + WriteItems(codec, items[1..])
  }

  function SentOf(items: seq<Item>): seq<StreamEvent> {
    if items == [] then []
    else (if items[0].Sent? then [items[0].event] else []) + SentOf(items[1..])
  }

  function ItemFrames(codec: Codec, items: seq<Item>): seq<seq<byte>> {
    if items == [] then [] else [Utf8(ItemText(codec, items[0]))] + ItemFrames(codec, items[1..])
  }

  lemma OneLineThenBlank(a: seq<byte>, tail: seq<byte>)
    requires a != [] && 10 !in a
    ensures NextSeparator(a + [10, 10] + tail) == Some(Separator(|a|, 2))
  {
    var all := a + [10, 10] + tail;
    assert forall i :: 0 <= i < |a| ==> all[i] == a[i];
    FirstLfIs(all, |a|);
  }

  lemma LineBytes(x: string)
    requires x != "" && OneLine(x) && '\r' !in x
    ensures Utf8(x) != [] && 10 !in Utf8(x) && 13 !in Utf8(x)
  {
    Utf8Clean(x);
  }

  lemma SingleLineSeparated(x: string, tail: seq<byte>)
    requires x != "" && OneLine(x) && '\r' !in x
    ensures NextSeparator(Utf8(x) + [10, 10] + tail) == Some(Separator(|Utf8(x)|, 2)) && 13 !in Utf8(x)
  {
    hide NextSeparator, Utf8;
    LineBytes(x);
    OneLineThenBlank(Utf8(x), tail);
  }

  lemma TwoLinesSeparated(x: string, y: string, tail: seq<byte>)
    requires x != "" && OneLine(x) && '\r' !in x && y != "" && OneLine(y) && '\r' !in y
    ensures var b := Utf8(x + "\n" + y);
            NextSeparator(b + [10, 10] + tail) == Some(Separator(|b|, 2)) && 13 !in b
  {
    hide NextSeparator, Utf8;
    LineBytes(x);
    LineBytes(y);
    Utf8Concat(x, "\n");
    Utf8Concat(x + "\n", y);
    NewlineBytes();
    TwoLinesThenBlank(Utf8(x), Utf8(y), tail);
  }

  lemma ItemSeparated(codec: Codec, item: Item, tail: seq<byte>)
    requires Lawful(codec) && SafeItem(item)
    ensures var b := Utf8(ItemText(codec, item));
            NextSeparator(b + [10, 10] + tail) == Some(Separator(|b|, 2)) && 13 !in b
  {
    hide NextSeparator, Utf8, Lawful;
    match item
    case Sent(e) =>
      var a, b := FrameBytes(codec, e);
      TwoLinesThenBlank(a, b, tail);
    case Ping(payload) => TwoLinesSeparated(PING, "data: " + payload, tail);
    case Note(text) => SingleLineSeparated(":" + text, tail);
    case Done => SingleLineSeparated(DONE, tail);
  }

  lemma {:induction false} ItemsDrain(codec: Codec, items: seq<Item>)
    requires Lawful(codec) && SafeItems(items)
    ensures var body := Utf8(WriteItems(codec, items));
            AllFrames(Drain(body)) == ItemFrames(codec, items) && 13 !in body
  {
    hide Drain, NextSeparator, ItemText, Lawful, SafeItem;
    var body := Utf8(WriteItems(codec, items));
    if items == [] {
      EmptyDrains();
    } else {
      var text, later := ItemText(codec, items[0]), WriteItems(codec, items[1..]);
      var b, tail := Utf8(text), Utf8(later);
      Utf8Concat(text + "\n\n", later);
      Utf8Concat(text, "\n\n");
      NewlineBytes();
      assert items[0] in items;
      ItemSeparated(codec, items[0], tail);
      var s := Separator(|b|, 2);
      DrainHead(body, s);
      assert After(body, s) == tail && FirstPiece(body, s).frame == b;
      ItemsDrain(codec, items[1..]);
      assert Drain(body).pieces[1..] == Drain(tail).pieces;
    }
  }

  lemma ItemMeaning(codec: Codec, context: Context, item: Item)
    requires Lawful(codec) && SafeItem(item)
    ensures BytesMeaning(codec, context, Utf8(ItemText(codec, item)))
            == if item.Sent? then Event(item.event) else Skipped
  {
    hide FrameMeaning, Utf8;
    match item
    case Sent(e) => FrameRoundTrip(codec, context, e);
    case Ping(payload) => PingIsSkipped(codec, context, payload);
    case Note(text) =>
      var line := ":" + text;
      assert line[..1] == ":";
      SilentFrame(codec, context, [line]);
    case Done => DoneIsSkipped(codec, context);
  }

  lemma {:induction false} ItemsMean(codec: Codec, context: Context, items: seq<Item>)
    requires Lawful(codec) && SafeItems(items)
    ensures AllParse(codec, context, ItemFrames(codec, items))
    ensures Events(codec, context, ItemFrames(codec, items)) == SentOf(items)
  {
    hide BytesMeaning, ItemText, Lawful, SafeItem;
    if items != [] {
      assert items[0] in items;
      ItemMeaning(codec, context, items[0]);
      ItemsMean(codec, context, items[1..]);
      assert ItemFrames(codec, items)[1..] == ItemFrames(codec, items[1..]);
    }
  }

  /** Pings, comments and `[DONE]` between the events change nothing that is delivered, however the bytes arrive. */
  lemma SilentFramesChangeNothing(codec: Codec, context: Context, items: seq<Item>, chunks: seq<seq<byte>>)
    requires Lawful(codec) && SafeItems(items) && Flatten(chunks) == Utf8(WriteItems(codec, items))
    ensures Pull(codec, context, [], [], chunks) == Trace(SentOf(items), None)
  {
    hide Drain, Pull, WriteItems, Lawful, AllParse, Events, ItemFrames, SafeItems;
    var stream := Utf8(WriteItems(codec, items));
    ItemsDrain(codec, items);
    ItemsMean(codec, context, items);
    SingleSeparatorKind(stream);
    DeliveryIndependentOfChunking(codec, context, stream, chunks);
  }
}
