/** What a stream delivers under any chunking, malformed frames included. */
module Delivery {
  import opened Text
  import opened StreamTypes
  import opened SseFraming
  import opened SseParser
  import opened MessageStream

  /** The events of the frames before the first malformed one, and its error. */
  function UntilMalformed(codec: Codec, context: Context, frames: seq<seq<byte>>): Trace {
    if frames == [] then Trace([], None)
    else
      match BytesMeaning(codec, context, frames[0])
      case Malformed(error) => Trace([], Some(error))
      case Skipped => UntilMalformed(codec, context, frames[1..])
      case Event(e) =>
        var t := UntilMalformed(codec, context, frames[1..]);
        Trace([e] + t.events, t.failure)
  }

  lemma {:induction false} UntilConcat(codec: Codec, context: Context, f: seq<seq<byte>>, g: seq<seq<byte>>)
    ensures var u, v := UntilMalformed(codec, context, f), UntilMalformed(codec, context, g);
            UntilMalformed(codec, context, f + g) ==
              if u.failure.Some? then u else Trace(u.events + v.events, v.failure)
  {
    hide BytesMeaning, UntilMalformed;
    UntilStep(codec, context, f);
    if f == [] {
      assert f + g == g;
      var v := UntilMalformed(codec, context, g);
      assert [] + v.events == v.events;
    } else {
      UntilConcat(codec, context, f[1..], g);
      UntilStep(codec, context, f + g);
      assert (f + g)[1..] == f[1..] + g && (f + g)[0] == f[0];
      var u, v := UntilMalformed(codec, context, f[1..]), UntilMalformed(codec, context, g);
      assert forall e: StreamEvent :: [e] + (u.events + v.events) == ([e] + u.events) + v.events;
    }
  }

  lemma UntilStep(codec: Codec, context: Context, frames: seq<seq<byte>>)
    ensures UntilMalformed(codec, context, frames) ==
            if frames == [] then Trace([], None)
            else
              match BytesMeaning(codec, context, frames[0])
              case Malformed(error) => Trace([], Some(error))
              case Skipped => UntilMalformed(codec, context, frames[1..])
              case Event(e) =>
                var t := UntilMalformed(codec, context, frames[1..]);
                Trace([e] + t.events, t.failure)
  {
    hide BytesMeaning;
  }

  /** Nothing fails exactly when all frames parse; their events are then all told. */
  lemma {:induction false} UntilParses(codec: Codec, context: Context, frames: seq<seq<byte>>)
    ensures UntilMalformed(codec, context, frames).failure.None? <==> AllParse(codec, context, frames)
    ensures AllParse(codec, context, frames) ==>
              UntilMalformed(codec, context, frames).events == Events(codec, context, frames)
  {
    hide BytesMeaning;
    if frames != [] {
      UntilParses(codec, context, frames[1..]);
      assert forall f :: f in frames <==> f == frames[0] || f in frames[1..];
    }
  }

  // --- Pushes and the finish ---

  function AsResult(t: Trace): Result<seq<StreamEvent>, ApiError> {
    match t.failure
    case None => Ok(t.events)
    case Some(error) => Err(error)
  }

  /** A push returns the events of its frames, or only the first error among them. */
  lemma {:induction false} ConsumeUntil(codec: Codec, context: Context, b: seq<byte>)
    ensures Consume(codec, context, b).events == AsResult(UntilMalformed(codec, context, Frames(Drain(b).pieces)))
    ensures Consume(codec, context, b).events.Ok? ==> Consume(codec, context, b).rest == Drain(b).rest
    decreases |b|
  {
    hide NextSeparator, Drain, Consume, BytesMeaning, FirstPiece, After;
    ConsumeStep(codec, context, b);
    match NextSeparator(b)
    case None => DrainNothing(b);
    case Some(s) =>
      DrainHead(b, s);
      var t := After(b, s);
      var all := Frames(Drain(b).pieces);
      assert Drain(b).pieces[1..] == Drain(t).pieces;
      assert all[0] == FirstPiece(b, s).frame && all[1..] == Frames(Drain(t).pieces);
      ConsumeUntil(codec, context, t);
  }

  lemma FinishUntil(codec: Codec, context: Context, b: seq<byte>)
    ensures var u := UntilMalformed(codec, context, AllFrames(Drained([], b)));
            FinishMeaning(codec, context, b) == AsResult(u) && (u.failure.Some? ==> u.events == [])
  {
    hide BytesMeaning;
    var all := AllFrames(Drained([], b));
    if b == [] {
      assert all == [];
    } else {
      assert all == [b] && all[0] == b && all[1..] == [];
      UntilStep(codec, context, all);
      UntilStep(codec, context, all[1..]);
      assert forall e: StreamEvent :: [e] + [] == [e];
    }
  }

  lemma FinishDelivers(codec: Codec, context: Context, pending: seq<StreamEvent>, b: seq<byte>)
    ensures var t := Pull(codec, context, pending, b, []);
            var u := UntilMalformed(codec, context, AllFrames(Drained([], b)));
            t.failure == u.failure && t.events == pending + u.events
  {
    hide FinishMeaning, UntilMalformed, AllFrames;
    FinishUntil(codec, context, b);
    var u := UntilMalformed(codec, context, AllFrames(Drained([], b)));
    assert u.events == [] ==> pending + u.events == pending;
  }

  /**
   * Under any chunking the stream fails as the frames of that chunking say, with the error of the first
   * malformed one; it delivers no other events than those before it, in order, and all of them unless a
   * separated frame is malformed.
   */
  lemma {:induction false} PullDelivers(codec: Codec, context: Context, pending: seq<StreamEvent>, b: seq<byte>,
                                        incoming: seq<seq<byte>>)
    ensures var t := Pull(codec, context, pending, b, incoming);
            var d := PushAll(b, incoming);
            var u := UntilMalformed(codec, context, AllFrames(d));
            && t.failure == u.failure && t.events <= pending + u.events
            && (UntilMalformed(codec, context, Frames(d.pieces)).failure.None? ==> t.events == pending + u.events)
    decreases |incoming|
  {
    hide Consume, Drain, BytesMeaning, FinishMeaning, UntilMalformed, AllFrames;
    if incoming == [] {
      FinishDelivers(codec, context, pending, b);
    } else {
      var first := Drain(b + incoming[0]);
      var later := PushAll(first.rest, incoming[1..]);
      var f, g := Frames(first.pieces), AllFrames(later);
      ConsumeUntil(codec, context, b + incoming[0]);
      FramesSplit(first.pieces, later);
      UntilConcat(codec, context, f, g);
      UntilConcat(codec, context, f, Frames(later.pieces));
      var u := UntilMalformed(codec, context, f);
      if u.failure.None? {
        PullDelivers(codec, context, pending + u.events, first.rest, incoming[1..]);
        var v := UntilMalformed(codec, context, g);
        assert (pending + u.events) + v.events == pending + (u.events + v.events);
      }
    }
  }

  lemma {:induction false} FramesSplit(first: seq<Piece>, later: Drained)
    ensures AllFrames(Drained(first + later.pieces, later.rest)) == Frames(first) + AllFrames(later)
    ensures Frames(first + later.pieces) == Frames(first) + Frames(later.pieces)
  {
    hide Frames;
    assert Frames(first + later.pieces) == Frames(first) + Frames(later.pieces);
  }

  // --- Exactly which ordered streams deliver alike under every chunking ---

  ghost predicate DeliveryIndependent(codec: Codec, context: Context, stream: seq<byte>) {
    forall chunks: seq<seq<byte>> :: Flatten(chunks) == stream ==>
      Pull(codec, context, [], [], chunks) == Pull(codec, context, [], [], [stream])
  }

  /** No event comes before the first malformed frame among the separated ones. */
  ghost predicate FailsBeforeEvents(codec: Codec, context: Context, stream: seq<byte>) {
    var u := UntilMalformed(codec, context, Frames(Drain(stream).pieces));
    u.failure.Some? ==> u.events == []
  }

  /** An ordered stream under some chunking, in terms of its own frames. */
  lemma OrderedDelivers(codec: Codec, context: Context, stream: seq<byte>, chunks: seq<seq<byte>>)
    requires Flatten(chunks) == stream && LfBeforeCrlf(stream)
    ensures var t := Pull(codec, context, [], [], chunks);
            var u := UntilMalformed(codec, context, AllFrames(Drain(stream)));
            && t.failure == u.failure && t.events <= u.events
            && (UntilMalformed(codec, context, Frames(Drain(stream).pieces)).failure.None? ==> t == u)
  {
    hide LfBeforeCrlf, Pull, UntilMalformed, Drain, AllFrames, PushAll;
    assert [] + stream == stream;
    NothingSeparates();
    ChunksDrainLikeTheWhole([], chunks);
    PullDelivers(codec, context, [], [], chunks);
    var u := UntilMalformed(codec, context, AllFrames(Drain(stream)));
    assert [] + u.events == u.events;
  }

  lemma NothingSeparates()
    ensures NextSeparator([]).None?
  {
  }

  /** When no separated frame is malformed, only the finish can fail, and after all events. */
  lemma SeparatedFails(codec: Codec, context: Context, d: Drained)
    ensures var u := UntilMalformed(codec, context, Frames(d.pieces));
            u.failure.Some? ==> UntilMalformed(codec, context, AllFrames(d)) == u
  {
    hide UntilMalformed;
    var last: seq<seq<byte>> := if d.rest == [] then [] else [d.rest];
    UntilConcat(codec, context, Frames(d.pieces), last);
  }

  /**
   * An ordered stream delivers the same events and the same error under every chunking exactly when no
   * event comes before its first malformed separated frame.
   */
  lemma DeliveryIndependentIff(codec: Codec, context: Context, stream: seq<byte>)
    requires LfBeforeCrlf(stream)
    ensures DeliveryIndependent(codec, context, stream) <==> FailsBeforeEvents(codec, context, stream)
  {
    hide LfBeforeCrlf, Pull, UntilMalformed, Drain, AllFrames;
    assert Flatten([stream]) == stream by {
      assert [stream][1..] == [] && stream + [] == stream;
    }
    SeparatedFails(codec, context, Drain(stream));
    if FailsBeforeEvents(codec, context, stream) {
      OrderedDelivers(codec, context, stream, [stream]);
      forall chunks: seq<seq<byte>> | Flatten(chunks) == stream
        ensures Pull(codec, context, [], [], chunks) == Pull(codec, context, [], [], [stream])
      {
        OrderedDelivers(codec, context, stream, chunks);
      }
    } else {
      var chunks := DifferingChunks(codec, context, stream);
    }
  }

  /** Pushed whole, such a stream delivers nothing; cut in front of the malformed frame, it delivers events. */
  lemma DifferingChunks(codec: Codec, context: Context, stream: seq<byte>) returns (chunks: seq<seq<byte>>)
    requires !FailsBeforeEvents(codec, context, stream)
    ensures Flatten(chunks) == stream
    ensures Pull(codec, context, [], [], [stream]).events == []
    ensures Pull(codec, context, [], [], chunks).events != []
  {
    hide Pull, UntilMalformed, Drain, Consume;
    var pieces := Drain(stream).pieces;
    var u := UntilMalformed(codec, context, Frames(pieces));
    var k := FirstMalformed(codec, context, Frames(pieces));
    var a := Reassemble(pieces[..k]);
    DrainPrefix(stream, k);
    var c := stream[|a|..];
    chunks := [a, c];
    var none: seq<seq<byte>> := [];
    assert chunks[1..] == [c] && [c][1..] == none && Flatten([c]) == c + Flatten(none) == c;
    assert a + c == stream;
    assert Frames(pieces[..k]) == Frames(pieces)[..k];
    assert [] + a == a && [] + stream == stream && [] + u.events == u.events;
    ConsumeUntil(codec, context, a);
    ConsumeUntil(codec, context, stream);
    PullStep(codec, context, [], chunks);
    PullStep(codec, context, [], [stream]);
    PullPending(codec, context, u.events, [], [], [c]);
    assert u.events + [] == u.events;
  }

  lemma {:induction false} FirstMalformed(codec: Codec, context: Context, frames: seq<seq<byte>>) returns (k: nat)
    requires UntilMalformed(codec, context, frames).failure.Some?
    ensures k < |frames|
    ensures UntilMalformed(codec, context, frames[..k]) == Trace(UntilMalformed(codec, context, frames).events, None)
  {
    hide BytesMeaning;
    if BytesMeaning(codec, context, frames[0]).Malformed? {
      k := 0;
    } else {
      var j := FirstMalformed(codec, context, frames[1..]);
      k := j + 1;
      assert frames[..k][1..] == frames[1..][..j];
    }
  }

  lemma NextSeparatorOfPrefix(b: seq<byte>, n: nat)
    requires NextSeparator(b).Some? && n <= |b|
    requires NextSeparator(b).value.position + NextSeparator(b).value.length <= n
    ensures NextSeparator(b[..n]) == NextSeparator(b)
  {
    var a, p := b[..n], NextSeparator(b).value.position;
    assert forall i :: 0 <= i < p ==> LfAt(a, i) == LfAt(b, i) && CrlfAt(a, i) == CrlfAt(b, i);
    if FirstLf(b, 0).Some? {
      FirstLfIs(a, p);
    } else {
      assert forall i :: LfAt(a, i) ==> LfAt(b, i);
      FirstCrlfIs(a, p);
    }
  }

  /** The first pieces of a stream are all that their own bytes drain to. */
  lemma {:induction false} DrainPrefix(b: seq<byte>, k: nat)
    requires k <= |Drain(b).pieces|
    ensures var a := Reassemble(Drain(b).pieces[..k]);
            a <= b && Drain(a) == Drained(Drain(b).pieces[..k], [])
    decreases k
  {
    hide NextSeparator, Drain, FirstPiece, After;
    var pieces := Drain(b).pieces;
    if k == 0 {
      NothingSeparates();
      DrainNothing([]);
    } else {
      if NextSeparator(b).None? {
        DrainNothing(b);
      }
      var s := NextSeparator(b).value;
      DrainHead(b, s);
      var t, piece := After(b, s), FirstPiece(b, s);
      assert pieces[1..] == Drain(t).pieces;
      DrainPrefix(t, k - 1);
      var rest := Reassemble(Drain(t).pieces[..k - 1]);
      assert pieces[..k] == [piece] + Drain(t).pieces[..k - 1];
      ReassembleCons(piece, Drain(t).pieces[..k - 1]);
      PieceThenPrefix(b, s, rest);
      var a := Reassemble(pieces[..k]);
      NextSeparatorOfPrefix(b, |a|);
      DrainHead(a, s);
    }
  }

  lemma PieceThenPrefix(b: seq<byte>, s: Separator, rest: seq<byte>)
    requires Fits(s, b) && rest <= After(b, s)
    ensures var a := FirstPiece(b, s).frame + FirstPiece(b, s).separator + rest;
            a <= b && b[..|a|] == a && s.position + s.length <= |a|
            && FirstPiece(a, s) == FirstPiece(b, s) && After(a, s) == rest
  {
    var a := FirstPiece(b, s).frame + FirstPiece(b, s).separator + rest;
    assert b[..|a|] == a;
  }

  // --- Streams whose frames all parse ---

  /** Any chunking of an ordered stream whose frames all parse delivers the same events. */
  lemma DeliveryIndependentOfChunking(codec: Codec, context: Context, stream: seq<byte>, chunks: seq<seq<byte>>)
    requires Flatten(chunks) == stream && LfBeforeCrlf(stream)
    requires AllParse(codec, context, AllFrames(Drain(stream)))
    ensures Pull(codec, context, [], [], chunks) == Trace(Events(codec, context, AllFrames(Drain(stream))), None)
  {
    hide LfBeforeCrlf, Pull, UntilMalformed, Drain, AllFrames;
    OrderedDelivers(codec, context, stream, chunks);
    UntilParses(codec, context, AllFrames(Drain(stream)));
    SeparatedFails(codec, context, Drain(stream));
  }

  /** A stream with one kind of separator only is ordered. */
  lemma SingleSeparatorKind(stream: seq<byte>)
    requires (forall i :: !CrlfAt(stream, i)) || (forall i :: !LfAt(stream, i))
    ensures LfBeforeCrlf(stream)
  {
  }
}
