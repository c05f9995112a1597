/** The server-sent-event parser: framing of a chunked byte stream and the meaning of a frame. */
module SseFraming {
  import opened Text
  import opened StreamTypes

  const LF: byte := 10
  const CR: byte := 13

  // --- Framing ---

  predicate LfAt(b: seq<byte>, i: int) {
    0 <= i && i + 1 < |b| && b[i] == LF && b[i + 1] == LF
  }

  predicate CrlfAt(b: seq<byte>, i: int) {
    0 <= i && i + 3 < |b| && b[i] == CR && b[i + 1] == LF && b[i + 2] == CR && b[i + 3] == LF
  }

  function FirstLf(b: seq<byte>, from: nat): (r: Option<nat>)
    ensures r.Some? ==> from <= r.value && LfAt(b, r.value) && forall i :: from <= i < r.value ==> !LfAt(b, i)
    ensures r.None? ==> forall i :: from <= i ==> !LfAt(b, i)
    decreases |b| - from
  {
    if from >= |b| then None else if LfAt(b, from) then Some(from) else FirstLf(b, from + 1)
  }

  function FirstCrlf(b: seq<byte>, from: nat): (r: Option<nat>)
    ensures r.Some? ==> from <= r.value && CrlfAt(b, r.value) && forall i :: from <= i < r.value ==> !CrlfAt(b, i)
    ensures r.None? ==> forall i :: from <= i ==> !CrlfAt(b, i)
    decreases |b| - from
  {
    if from >= |b| then None else if CrlfAt(b, from) then Some(from) else FirstCrlf(b, from + 1)
  }

  datatype Separator = Separator(position: nat, length: nat)

  /** The code's own rule: the first LF LF anywhere in the buffer, and only without one CR LF CR LF. */
  function NextSeparator(b: seq<byte>): (r: Option<Separator>)
    ensures r.Some? ==> Fits(r.value, b)
  {
    match FirstLf(b, 0)
    case Some(p) => Some(Separator(p, 2))
    case None =>
      match FirstCrlf(b, 0)
      case Some(p) => Some(Separator(p, 4))
      case None => None
  }

  datatype Piece = Piece(frame: seq<byte>, separator: seq<byte>)

  datatype Drained = Drained(pieces: seq<Piece>, rest: seq<byte>)

  predicate Fits(s: Separator, b: seq<byte>) {
    0 < s.length && s.position + s.length <= |b|
  }

  function FirstPiece(b: seq<byte>, s: Separator): Piece
    requires Fits(s, b)
  {
    Piece(b[..s.position], b[s.position..s.position + s.length])
  }

  function After(b: seq<byte>, s: Separator): (r: seq<byte>)
    requires Fits(s, b)
    ensures |r| < |b|
  {
    b[s.position + s.length..]
  }

  /** Everything repeated `next_frame` calls take out of a buffer, and what they leave. */
  function Drain(b: seq<byte>): Drained
    decreases |b|
  {
    match NextSeparator(b)
    case None => Drained([], b)
    case Some(s) =>
      var d := Drain(After(b, s));
      Drained([FirstPiece(b, s)] + d.pieces, d.rest)
  }

  function Reassemble(pieces: seq<Piece>): seq<byte> {
    if pieces == [] then [] else pieces[0].frame + pieces[0].separator + Reassemble(pieces[1..])
  }

  lemma DrainHead(b: seq<byte>, s: Separator)
    requires NextSeparator(b) == Some(s)
    ensures Fits(s, b)
    ensures var d := Drain(After(b, s)); Drain(b) == Drained([FirstPiece(b, s)] + d.pieces, d.rest)
  {
    hide NextSeparator, FirstPiece, After;
  }

  /** Conservation: frames, separators and remaining buffer are the bytes, in order. */
  lemma {:induction false} DrainConserves(b: seq<byte>)
    ensures Reassemble(Drain(b).pieces) + Drain(b).rest == b
    decreases |b|
  {
    hide NextSeparator, Drain;
    match NextSeparator(b)
    case None =>
      DrainNothing(b);
    case Some(s) =>
      DrainHead(b, s);
      var t := After(b, s);
      DrainConserves(t);
      assert Drain(b).pieces[1..] == Drain(t).pieces;
      assert b == FirstPiece(b, s).frame + FirstPiece(b, s).separator + t;
  }

  lemma DrainNothing(b: seq<byte>)
    requires NextSeparator(b).None?
    ensures Drain(b) == Drained([], b)
  {
    hide NextSeparator;
  }

  // --- Chunking ---

  /** Pushing the chunks one after the other, starting with `b` in the buffer. */
  function PushAll(b: seq<byte>, chunks: seq<seq<byte>>): Drained
    decreases |chunks|
  {
    if chunks == [] then Drained([], b)
    else
      var d := Drain(b + chunks[0]);
      var e := PushAll(d.rest, chunks[1..]);
      Drained(d.pieces + e.pieces, e.rest)
  }

  /** No LF LF begins behind a CR LF CR LF. */
  ghost predicate LfBeforeCrlf(b: seq<byte>) {
    forall i, j :: CrlfAt(b, i) && LfAt(b, j) ==> j < i
  }

  lemma LfShift(b: seq<byte>, k: nat, i: int)
    requires k <= |b| && 0 <= i
    ensures LfAt(b[k..], i) == LfAt(b, k + i) && CrlfAt(b[k..], i) == CrlfAt(b, k + i)
  {
  }

  lemma OrderedSuffix(b: seq<byte>, k: nat)
    requires LfBeforeCrlf(b) && k <= |b|
    ensures LfBeforeCrlf(b[k..])
  {
    forall i, j | CrlfAt(b[k..], i) && LfAt(b[k..], j)
      ensures j < i
    {
      LfShift(b, k, i);
      LfShift(b, k, j);
    }
  }

  lemma FirstLfIs(b: seq<byte>, p: nat)
    requires LfAt(b, p) && forall i :: 0 <= i < p ==> !LfAt(b, i)
    ensures FirstLf(b, 0) == Some(p)
  {
  }

  lemma FirstCrlfIs(b: seq<byte>, p: nat)
    requires CrlfAt(b, p) && forall i :: 0 <= i < p ==> !CrlfAt(b, i)
    ensures FirstCrlf(b, 0) == Some(p)
  {
  }

  /** Bytes that arrive later do not move the next separator of an ordered stream. */
  lemma NextSeparatorStable(b: seq<byte>, c: seq<byte>)
    requires LfBeforeCrlf(b + c) && NextSeparator(b).Some?
    ensures NextSeparator(b + c) == NextSeparator(b)
  {
    var p := NextSeparator(b).value.position;
    if FirstLf(b, 0).Some? {
      assert forall i :: 0 <= i < p ==> LfAt(b + c, i) == LfAt(b, i);
      FirstLfIs(b + c, p);
    } else {
      assert CrlfAt(b + c, p);
      assert forall i :: 0 <= i < p ==> LfAt(b + c, i) == LfAt(b, i);
      assert forall i :: 0 <= i < p ==> CrlfAt(b + c, i) == CrlfAt(b, i);
      assert !LfAt(b + c, p);
      assert FirstLf(b + c, 0).None?;
      FirstCrlfIs(b + c, p);
    }
  }

  lemma {:induction false} DrainInTwoSteps(b: seq<byte>, c: seq<byte>)
    requires LfBeforeCrlf(b + c)
    ensures Drain(b + c).pieces == Drain(b).pieces + Drain(Drain(b).rest + c).pieces
    ensures Drain(b + c).rest == Drain(Drain(b).rest + c).rest
    decreases |b|
  {
    hide NextSeparator, LfBeforeCrlf, Drain;
    match NextSeparator(b)
    case None =>
      DrainNothing(b);
    case Some(s) =>
      NextSeparatorStable(b, c);
      DrainHead(b, s);
      DrainHead(b + c, s);
      assert After(b + c, s) == After(b, s) + c && FirstPiece(b + c, s) == FirstPiece(b, s);
      OrderedSuffix(b + c, s.position + s.length);
      DrainInTwoSteps(After(b, s), c);
  }

  /** What a drained buffer keeps holds no separator, and with the bytes to come stays ordered. */
  lemma {:induction false} RestOfDrain(b: seq<byte>, c: seq<byte>)
    ensures NextSeparator(Drain(b).rest).None?
    ensures LfBeforeCrlf(b + c) ==> LfBeforeCrlf(Drain(b).rest + c)
    decreases |b|
  {
    hide NextSeparator, LfBeforeCrlf, Drain;
    match NextSeparator(b)
    case None =>
      DrainNothing(b);
    case Some(s) =>
      DrainHead(b, s);
      assert (b + c)[s.position + s.length..] == After(b, s) + c;
      if LfBeforeCrlf(b + c) {
        OrderedSuffix(b + c, s.position + s.length);
      }
      RestOfDrain(After(b, s), c);
  }

  /** Pushing an ordered stream in any chunks drains it like one push of the whole. */
  lemma {:induction false} ChunksDrainLikeTheWhole(b: seq<byte>, chunks: seq<seq<byte>>)
    requires NextSeparator(b).None? && LfBeforeCrlf(b + Flatten(chunks))
    ensures PushAll(b, chunks) == Drain(b + Flatten(chunks))
    decreases |chunks|
  {
    hide NextSeparator, LfBeforeCrlf, Drain;
    if chunks == [] {
      DrainNothing(b);
      assert b + Flatten(chunks) == b;
    } else {
      var later := Flatten(chunks[1..]);
      assert b + Flatten(chunks) == (b + chunks[0]) + later;
      RestOfDrain(b + chunks[0], later);
      DrainInTwoSteps(b + chunks[0], later);
      ChunksDrainLikeTheWhole(Drain(b + chunks[0]).rest, chunks[1..]);
    }
  }

  // --- Exactly which streams are framed alike under every chunking ---

  function Frames(pieces: seq<Piece>): (r: seq<seq<byte>>)
    ensures |r| == |pieces|
    ensures forall i :: 0 <= i < |pieces| ==> r[i] == pieces[i].frame
  {
    if pieces == [] then [] else [pieces[0].frame] + Frames(pieces[1..])
  }

  /** The drained frames, then the rest, which `finish` takes as one more frame. */
  function AllFrames(d: Drained): seq<seq<byte>> {
    Frames(d.pieces) + if d.rest == [] then [] else [d.rest]
  }

  /** All frames a run hands to the frame parser. */
  function RunFrames(chunks: seq<seq<byte>>): seq<seq<byte>> {
    AllFrames(PushAll([], chunks))
  }

  ghost predicate ChunkingIndependent(stream: seq<byte>) {
    forall chunks: seq<seq<byte>> :: Flatten(chunks) == stream ==> RunFrames(chunks) == RunFrames([stream])
  }

  ghost predicate NoCrlfBefore(b: seq<byte>, i: nat) {
    forall j :: 0 <= j < i ==> !CrlfAt(b, j)
  }

  /** The first CR LF CR LF ends a shorter frame when the bytes behind it are not there yet. */
  lemma {:induction false} EarlyCut(b: seq<byte>, i: nat) returns (k: nat)
    requires CrlfAt(b, i) && FirstLf(b, i).Some? && NoCrlfBefore(b, i)
    ensures Drain(b[..i + 4]).rest == []
    ensures k < |Drain(b[..i + 4]).pieces| && k < |Drain(b).pieces|
    ensures |Drain(b[..i + 4]).pieces[k].frame| < |Drain(b).pieces[k].frame|
    decreases |b|
  {
    var p := FirstLf(b, 0).value;
    if p < i {
      assert p + 2 <= i;
      EarlyCutSuffix(b, i, p);
      var k' := EarlyCut(b[p + 2..], i - p - 2);
      k := EarlyCutSkip(b, i, p, k');
    } else {
      EarlyCutHere(b, i, p);
      k := 0;
    }
  }

  lemma EarlyCutHere(b: seq<byte>, i: nat, p: nat)
    requires CrlfAt(b, i) && FirstLf(b, 0) == Some(p) && i < p && NoCrlfBefore(b, i)
    ensures Drain(b[..i + 4]) == Drained([Piece(b[..i], b[i..i + 4])], [])
    ensures Drain(b).pieces != [] && |Drain(b).pieces[0].frame| == p
  {
    var c := b[..i + 4];
    assert forall j {:trigger LfAt(c, j)} :: 0 <= j < i + 3 ==> LfAt(c, j) == LfAt(b, j);
    assert FirstLf(c, 0).None?;
    assert forall j {:trigger CrlfAt(c, j)} :: 0 <= j < i ==> CrlfAt(c, j) == CrlfAt(b, j);
    FirstCrlfIs(c, i);
    assert NextSeparator(c) == Some(Separator(i, 4));
    assert c[i + 4..] == [] && c[..i] == b[..i] && c[i..i + 4] == b[i..i + 4];
    assert NextSeparator([]).None?;
  }

  lemma EarlyCutSkip(b: seq<byte>, i: nat, p: nat, k': nat) returns (k: nat)
    requires i + 4 <= |b| && FirstLf(b, 0) == Some(p) && p + 2 <= i
    requires var t := b[p + 2..]; var u := t[..i - p + 2];
             k' < |Drain(u).pieces| && k' < |Drain(t).pieces| && Drain(u).rest == []
             && |Drain(u).pieces[k'].frame| < |Drain(t).pieces[k'].frame|
    ensures Drain(b[..i + 4]).rest == []
    ensures k < |Drain(b[..i + 4]).pieces| && k < |Drain(b).pieces|
    ensures |Drain(b[..i + 4]).pieces[k].frame| < |Drain(b).pieces[k].frame|
  {
    hide Drain, NextSeparator, FirstLf;
    var c, s := b[..i + 4], Separator(p, 2);
    SameFirstLf(b, i, p);
    DrainHead(b, s);
    DrainHead(c, s);
    assert After(c, s) == b[p + 2..][..i - p + 2] && After(b, s) == b[p + 2..];
    k := k' + 1;
  }

  lemma SameFirstLf(b: seq<byte>, i: nat, p: nat)
    requires i + 4 <= |b| && FirstLf(b, 0) == Some(p) && p + 2 <= i
    ensures NextSeparator(b) == Some(Separator(p, 2)) && NextSeparator(b[..i + 4]) == Some(Separator(p, 2))
  {
    var c := b[..i + 4];
    assert forall j {:trigger LfAt(c, j)} :: 0 <= j <= p ==> LfAt(c, j) == LfAt(b, j);
    FirstLfIs(c, p);
  }

  lemma EarlyCutSuffix(b: seq<byte>, i: nat, p: nat)
    requires CrlfAt(b, i) && FirstLf(b, i).Some? && p + 2 <= i && NoCrlfBefore(b, i)
    ensures CrlfAt(b[p + 2..], i - p - 2) && FirstLf(b[p + 2..], i - p - 2).Some?
    ensures NoCrlfBefore(b[p + 2..], i - p - 2)
  {
    var t := b[p + 2..];
    forall j | 0 <= j < i - p - 2 ensures !CrlfAt(t, j) {
      LfShift(b, p + 2, j);
    }
    var q := FirstLf(b, i).value;
    LfShift(b, p + 2, q - p - 2);
    LfShift(b, p + 2, i - p - 2);
    assert LfAt(t, q - p - 2);
  }

  /** Chunking is invisible exactly when no LF LF begins behind a CR LF CR LF. */
  lemma ChunkingIndependentIff(stream: seq<byte>)
    ensures ChunkingIndependent(stream) <==> LfBeforeCrlf(stream)
  {
    if LfBeforeCrlf(stream) {
      forall chunks: seq<seq<byte>> | Flatten(chunks) == stream
        ensures RunFrames(chunks) == RunFrames([stream])
      {
        assert Flatten([stream]) == stream;
        assert [] + stream == stream;
        ChunksDrainLikeTheWhole([], chunks);
        ChunksDrainLikeTheWhole([], [stream]);
      }
    } else {
      var chunks := RevealingChunks(stream);
    }
  }

  lemma RevealingChunks(stream: seq<byte>) returns (chunks: seq<seq<byte>>)
    requires !LfBeforeCrlf(stream)
    ensures Flatten(chunks) == stream && RunFrames(chunks) != RunFrames([stream])
  {
    hide Drain;
    var i0, j0 :| CrlfAt(stream, i0) && LfAt(stream, j0) && i0 <= j0;
    var i := FirstCrlf(stream, 0).value;
    assert FirstLf(stream, i).Some?;
    var k := EarlyCut(stream, i);
    chunks := RevealedBy(stream, i + 4, k);
  }

  lemma RevealedBy(stream: seq<byte>, at: nat, k: nat) returns (chunks: seq<seq<byte>>)
    requires at <= |stream|
    requires k < |Drain(stream[..at]).pieces| && k < |Drain(stream).pieces|
    requires |Drain(stream[..at]).pieces[k].frame| < |Drain(stream).pieces[k].frame|
    ensures Flatten(chunks) == stream && RunFrames(chunks) != RunFrames([stream])
  {
    hide Drain;
    var a, b := stream[..at], stream[at..];
    chunks := [a, b];
    assert chunks[1..] == [b] && chunks[1..][1..] == [];
    assert Flatten([b]) == b;
    assert Flatten(chunks) == stream;
    PushTwo(a, b);
    PushOne(stream);
    assert RunFrames(chunks)[k] == Drain(a).pieces[k].frame;
    assert RunFrames([stream])[k] == Drain(stream).pieces[k].frame;
  }

  lemma PushOne(a: seq<byte>)
    ensures PushAll([], [a]) == Drain(a)
  {
    hide Drain;
    assert [] + a == a;
    assert [a][1..] == [];
    var d := Drain(a);
    assert PushAll(d.rest, []) == Drained([], d.rest);
    assert d.pieces + [] == d.pieces;
  }

  lemma PushTwo(a: seq<byte>, b: seq<byte>)
    ensures PushAll([], [a, b]).pieces == Drain(a).pieces + Drain(Drain(a).rest + b).pieces
  {
    hide Drain;
    assert [] + a == a;
    assert [a, b][1..] == [b] && [b][1..] == [];
    var d := Drain(a);
    var e := Drain(d.rest + b);
    assert PushAll(d.rest, [b]).pieces == e.pieces + PushAll(e.rest, []).pieces == e.pieces;
  }
}
