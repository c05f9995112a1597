/** Pulling events out of a network response, one at a time. */
module MessageStream {
  import opened Text
  import opened StreamTypes
  import opened SseFraming
  import opened SseParser

  /** The events a stream still delivers, and the error it then stops with, if any. */
  datatype Trace = Trace(events: seq<StreamEvent>, failure: Option<ApiError>)

  /** What is delivered from here on: `pending` first, then what the incoming chunks complete. */
  function Pull(codec: Codec, context: Context, pending: seq<StreamEvent>, b: seq<byte>, incoming: seq<seq<byte>>): Trace
    decreases |incoming|
  {
    if incoming == [] then
      match FinishMeaning(codec, context, b)
      case Ok(es) => Trace(pending + es, None)
      case Err(error) => Trace(pending, Some(error))
    else
      var c := Consume(codec, context, b + incoming[0]);
      match c.events
      case Ok(es) => Pull(codec, context, pending + es, c.rest, incoming[1..])
      case Err(error) => Trace(pending, Some(error))
  }

  lemma {:induction false} PullPending(codec: Codec, context: Context, p: seq<StreamEvent>, q: seq<StreamEvent>,
                                       b: seq<byte>, incoming: seq<seq<byte>>)
    ensures var t := Pull(codec, context, q, b, incoming);
            Pull(codec, context, p + q, b, incoming) == Trace(p + t.events, t.failure)
    decreases |incoming|
  {
    hide Consume, FinishMeaning;
    if incoming == [] {
      match FinishMeaning(codec, context, b)
      case Ok(es) => assert (p + q) + es == p + (q + es);
      case Err(_) =>
    } else {
      var c := Consume(codec, context, b + incoming[0]);
      match c.events
      case Ok(es) =>
        PullPending(codec, context, p, q + es, c.rest, incoming[1..]);
        assert (p + q) + es == p + (q + es);
      case Err(_) =>
    }
  }

  class Stream {
    const parser: Parser
    var pending: seq<StreamEvent>
    var done: bool
    /** The chunks the network has not delivered yet. */
    var incoming: seq<seq<byte>>

    constructor (codec: Codec, context: Context, incoming: seq<seq<byte>>)
      ensures Valid() && fresh(parser)
      ensures Ahead() == Pull(codec, context, [], [], incoming)
    {
      parser := new Parser(codec, context);
      pending, done := [], false;
      this.incoming := incoming;
    }

    ghost predicate Valid()
      reads this
    {
      done ==> incoming == []
    }

    ghost function Ahead(): Trace
      reads this, parser
    {
      Pull(parser.codec, parser.context, pending, parser.buffer, incoming)
    }

    /** The next event; `None` at the end of the response. */
    method NextEvent() returns (r: Result<Option<StreamEvent>, ApiError>)
      requires Valid()
      modifies this`pending, this`done, this`incoming, parser`buffer
      ensures r.Ok? ==> Valid()
      ensures r.Ok? && r.value.Some? ==>
                var was := old(Ahead());
                was.events != [] && r.value.value == was.events[0] && Ahead() == Trace(was.events[1..], was.failure)
      ensures r.Ok? && r.value.None? ==> old(Ahead()) == Trace([], None) && Ahead() == Trace([], None)
      ensures r.Err? ==> old(Ahead()) == Trace([], Some(r.error))
    {
      hide Consume, FinishMeaning, Pull;
      while true
        invariant Valid() && Ahead() == old(Ahead())
        decreases |incoming|, !done
      {
        if pending != [] {
          var event := pending[0];
          PullPending(parser.codec, parser.context, [event], pending[1..], parser.buffer, incoming);
          assert pending == [event] + pending[1..];
          pending := pending[1..];
          assert old(Ahead()).events == [event] + Ahead().events;
          return Ok(Some(event));
        }
        PullStep(parser.codec, parser.context, parser.buffer, incoming);
        if done {
          var remaining := parser.Finish();
          if remaining.Err? {
            return Err(remaining.error);
          }
          PullStep(parser.codec, parser.context, [], incoming);
          PullEnd(parser.codec, parser.context, remaining.value);
          pending := pending + remaining.value;
          assert pending == remaining.value;
          if pending != [] {
            var event := pending[0];
            PullEnd(parser.codec, parser.context, pending[1..]);
            pending := pending[1..];
            return Ok(Some(event));
          }
          return Ok(None);
        }
        if incoming != [] {
          var events := parser.Push(incoming[0]);
          if events.Err? {
            return Err(events.error);
          }
          assert pending + events.value == events.value;
          pending := pending + events.value;
          incoming := incoming[1..];
        } else {
          done := true;
        }
      }
    }
  }

  lemma PullStep(codec: Codec, context: Context, b: seq<byte>, incoming: seq<seq<byte>>)
    ensures Pull(codec, context, [], b, incoming) ==
            if incoming == [] then
              match FinishMeaning(codec, context, b)
              case Ok(es) => Trace(es, None)
              case Err(error) => Trace([], Some(error))
            else
              var c := Consume(codec, context, b + incoming[0]);
              match c.events
              case Ok(es) => Pull(codec, context, es, c.rest, incoming[1..])
              case Err(error) => Trace([], Some(error))
  {
    hide Consume, FinishMeaning;
    assert forall es: seq<StreamEvent> :: [] + es == es;
  }

  lemma PullEnd(codec: Codec, context: Context, pending: seq<StreamEvent>)
    ensures Pull(codec, context, pending, [], []) == Trace(pending, None)
  {
    assert pending + [] == pending;
  }
}
