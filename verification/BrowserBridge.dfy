/** Matching browser requests with responses: client threads, the pending map and the reader thread. */
module BrowserBridge {
  import opened Text

  // --- Request ids ---

  function Digit(d: nat): char
    requires d < 10
  {
    '0' + d as char
  }

  function Decimal(n: nat): (s: string)
    ensures s != ""
  {
    if n < 10 then [Digit(n)] else Decimal(n / 10) + [Digit(n % 10)]
  }

  /** The id a command gets from the counter, a 64-bit atomic that wraps around. */
  function IdOf(n: nat): string {
    "rt-" + Decimal(n % COUNTER_LIMIT)
  }

  const COUNTER_LIMIT: nat := 0x1_0000_0000_0000_0000

  lemma {:induction false} DecimalInjective(m: nat, n: nat)
    requires Decimal(m) == Decimal(n)
    ensures m == n
  {
    var s := Decimal(m);
    assert m >= 10 ==> s[..|s| - 1] == Decimal(m / 10) && s[|s| - 1] == Digit(m % 10);
    assert n >= 10 ==> s[..|s| - 1] == Decimal(n / 10) && s[|s| - 1] == Digit(n % 10);
    if m >= 10 && n >= 10 {
      DecimalInjective(m / 10, n / 10);
    }
  }

  lemma IdsDistinct(m: nat, n: nat)
    requires m < COUNTER_LIMIT && n < COUNTER_LIMIT && IdOf(m) == IdOf(n)
    ensures m == n
  {
    hide Decimal;
    assert IdOf(m)[3..] == Decimal(m) && IdOf(n)[3..] == Decimal(n);
    DecimalInjective(m, n);
  }

  // --- State ---

  /** A message read from Chrome: the id it names, if any, and the rest. */
  datatype Response = Response(requestId: Option<string>, payload: string)

  /** The response with its position among all messages read from Chrome. */
  datatype Delivery = Delivery(index: nat, response: Response)

  datatype Answer =
    | InvalidCommand
    | Disconnected
    | Reply(delivery: Delivery)
    | TimedOut(requestId: string)

  datatype Phase = Reading | Numbered | Registered | Waiting | Expired | Answering(answer: Answer) | Finished

  /** A client thread; `got` is what its channel was sent, received or not. */
  datatype Client = Client(phase: Phase, id: Option<string>, sent: bool, got: Option<Delivery>, written: seq<Answer>)

  datatype Bridge = Bridge(
    counter: nat, pending: map<string, nat>, clients: map<nat, Client>, chromeOpen: bool, arrived: nat)

  const START := Bridge(1, map[], map[], true, 0)

  // --- Steps, in any interleaving ---

  datatype Action =
    | Connect(c: nat)
    | ReadFails(c: nat)
    | RejectCommand(c: nat)
    | TakeNumber(c: nat)
    | Panic(c: nat)
    | Register(c: nat)
    | Send(c: nat)
    | SendFails(c: nat)
    | WriterStops
    | Arrive(response: Response)
    | Receive(c: nat)
    | Expire(c: nat)
    | GiveUp(c: nat)
    | Write(c: nat)

  predicate At(s: Bridge, c: nat, phase: Phase) {
    c in s.clients && s.clients[c].phase == phase
  }

  predicate Enabled(s: Bridge, a: Action) {
    match a
    case Connect(c) => c !in s.clients
    case ReadFails(c) => At(s, c, Reading)
    case RejectCommand(c) => At(s, c, Reading)
    case TakeNumber(c) => At(s, c, Reading)
    case Panic(c) => At(s, c, Numbered)
    case Register(c) => At(s, c, Numbered) && s.clients[c].id.Some?
    case Send(c) => At(s, c, Registered) && s.chromeOpen
    case SendFails(c) => At(s, c, Registered) && !s.chromeOpen
    case WriterStops => s.chromeOpen
    case Arrive(_) => true
    case Receive(c) => At(s, c, Waiting) && s.clients[c].got.Some?
    case Expire(c) => At(s, c, Waiting) && s.clients[c].got.None?
    case GiveUp(c) => At(s, c, Expired) && s.clients[c].id.Some?
    case Write(c) => c in s.clients && s.clients[c].phase.Answering?
  }

  function With(s: Bridge, c: nat, client: Client): Bridge {
    s.(clients := s.clients[c := client])
  }

  /** The reader removes the entry the message names and sends the message to its channel. */
  function Route(s: Bridge, r: Response): Bridge {
    var t := s.(arrived := s.arrived + 1);
    if r.requestId.Some? && r.requestId.value in s.pending && s.pending[r.requestId.value] in s.clients then
      var c := s.pending[r.requestId.value];
      With(t.(pending := s.pending - {r.requestId.value}), c,
           s.clients[c].(got := Some(Delivery(s.arrived, r))))
    else t
  }

  function Step(s: Bridge, a: Action): Bridge
    requires Enabled(s, a)
  {
    match a
    case Connect(c) => With(s, c, Client(Reading, None, false, None, []))
    case ReadFails(c) => With(s, c, s.clients[c].(phase := Finished))
    case RejectCommand(c) => With(s, c, s.clients[c].(phase := Finished, written := [InvalidCommand]))
    case TakeNumber(c) =>
      With(s.(counter := s.counter + 1), c, s.clients[c].(phase := Numbered, id := Some(IdOf(s.counter))))
    case Panic(c) => With(s, c, s.clients[c].(phase := Finished))
    case Register(c) =>
      With(s.(pending := s.pending[s.clients[c].id.value := c]), c, s.clients[c].(phase := Registered))
    case Send(c) => With(s, c, s.clients[c].(phase := Waiting, sent := true))
    case SendFails(c) => With(s, c, s.clients[c].(phase := Finished, written := [Disconnected]))
    case WriterStops => s.(chromeOpen := false)
    case Arrive(r) => Route(s, r)
    case Receive(c) => With(s, c, s.clients[c].(phase := Answering(Reply(s.clients[c].got.value))))
    case Expire(c) => With(s, c, s.clients[c].(phase := Expired))
    case GiveUp(c) =>
      With(s.(pending := s.pending - {s.clients[c].id.value}), c,
           s.clients[c].(phase := Answering(TimedOut(s.clients[c].id.value))))
    case Write(c) =>
      With(s, c, s.clients[c].(phase := Finished, written := s.clients[c].written + [s.clients[c].phase.answer]))
  }

  // --- The invariant ---

  /** The answer is the client's own: its response, or a timeout under its id. */
  ghost predicate OwnAnswer(client: Client, answer: Answer) {
    match answer
    case Reply(d) => client.got == Some(d)
    case TimedOut(id) => client.id == Some(id)
    case _ => false
  }

  /** What a single client's fields say about each other. */
  ghost predicate Consistent(s: Bridge, client: Client) {
    && (client.got.Some? ==>
          client.id.Some? && client.got.value.response.requestId == client.id && client.got.value.index < s.arrived)
    && match client.phase
       case Reading => client.id.None? && !client.sent && client.written == []
       case Numbered => client.id.Some? && client.got.None? && !client.sent && client.written == []
       case Registered => client.id.Some? && !client.sent && client.written == []
       case Waiting => client.id.Some? && client.sent && client.written == []
       case Expired => client.id.Some? && client.sent && client.written == []
       case Answering(answer) => client.sent && client.written == [] && OwnAnswer(client, answer)
       case Finished => client.sent ==> |client.written| == 1 && OwnAnswer(client, client.written[0])
  }

  /** The send failed, and the client was told so. */
  predicate SendFailed(client: Client) {
    client.written == [Disconnected]
  }

  /** The client's entry is in the pending map. */
  ghost predicate Listed(s: Bridge, c: nat)
    requires c in s.clients
  {
    var id := s.clients[c].id;
    id.Some? && id.value in s.pending && s.pending[id.value] == c
  }

  /** The client's id, if it has one, is one of the numbers given out. */
  ghost predicate HasNumber(s: Bridge, client: Client) {
    client.id.Some? ==> exists n :: 1 <= n < s.counter && client.id.value == IdOf(n)
  }

  /** Whether the client's entry is where its phase says it is. */
  predicate ListingOk(client: Client, listed: bool) {
    && (client.phase in {Registered, Waiting, Expired} ==> (client.got.None? <==> listed))
    && (client.got.Some? || client.phase == Numbered || client.phase.Answering? ==> !listed)
    && (client.phase == Finished && client.id.Some? ==> (listed <==> SendFailed(client) && client.got.None?))
  }

  ghost predicate ClientOk(s: Bridge, c: nat)
    requires c in s.clients
  {
    Consistent(s, s.clients[c]) && HasNumber(s, s.clients[c]) && ListingOk(s.clients[c], Listed(s, c))
  }

  ghost predicate EntryOk(s: Bridge, id: string)
    requires id in s.pending
  {
    s.pending[id] in s.clients && s.clients[s.pending[id]].id == Some(id)
  }

  ghost predicate IdsUnique(s: Bridge) {
    forall c, d :: c in s.clients && d in s.clients && c != d && s.clients[c].id.Some? ==>
      s.clients[c].id != s.clients[d].id
  }

  ghost predicate DeliveriesUnique(s: Bridge) {
    forall c, d :: c in s.clients && d in s.clients && c != d && s.clients[c].got.Some? && s.clients[d].got.Some? ==>
      s.clients[c].got.value.index != s.clients[d].got.value.index
  }

  ghost predicate Inv(s: Bridge) {
    && s.counter >= 1
    && (forall c :: c in s.clients ==> ClientOk(s, c))
    && (forall id :: id in s.pending ==> EntryOk(s, id))
    && IdsUnique(s) && DeliveriesUnique(s)
  }

  lemma InvInit()
    ensures Inv(START)
  {
  }

  /** A client nobody touched, whose entry is as it was, is still in order. */
  lemma Untouched(s: Bridge, t: Bridge, d: nat)
    requires d in s.clients && d in t.clients && t.clients[d] == s.clients[d] && ClientOk(s, d)
    requires s.counter <= t.counter && s.arrived <= t.arrived && (Listed(s, d) <==> Listed(t, d))
    ensures ClientOk(t, d)
  {
    hide Listed, IdOf;
  }

  /** A client moves on with its id, its channel and the pending map as they were. */
  lemma ClientMoves(s: Bridge, c: nat, client: Client)
    requires Inv(s) && c in s.clients && client.id == s.clients[c].id && client.got == s.clients[c].got
    requires ClientOk(With(s, c, client), c)
    ensures Inv(With(s, c, client))
  {
    hide ClientOk;
    var t := With(s, c, client);
    forall d | d in t.clients ensures ClientOk(t, d) {
      if d != c {
        Untouched(s, t, d);
      }
    }
    forall id | id in t.pending ensures EntryOk(t, id) {
      assert EntryOk(s, id);
    }
  }

  lemma ConnectKeeps(s: Bridge, c: nat)
    requires Inv(s) && Enabled(s, Connect(c))
    ensures Inv(Step(s, Connect(c)))
  {
    hide ClientOk;
    var t := Step(s, Connect(c));
    NewClientOk(t, c);
    forall d | d in t.clients ensures ClientOk(t, d) {
      if d != c {
        Untouched(s, t, d);
      }
    }
    forall id | id in t.pending ensures EntryOk(t, id) {
      assert EntryOk(s, id);
    }
  }

  lemma NewClientOk(t: Bridge, c: nat)
    requires c in t.clients && t.clients[c] == Client(Reading, None, false, None, [])
    ensures ClientOk(t, c)
  {
  }

  lemma TakeNumberKeeps(s: Bridge, c: nat)
    requires Inv(s) && Enabled(s, TakeNumber(c)) && s.counter < COUNTER_LIMIT
    ensures Inv(Step(s, TakeNumber(c)))
  {
    hide ClientOk, IdOf;
    var t := Step(s, TakeNumber(c));
    forall d | d in s.clients
      ensures s.clients[d].id != Some(IdOf(s.counter))
    {
      NumberIsNew(s, d);
    }
    forall id | id in t.pending ensures EntryOk(t, id) {
      assert EntryOk(s, id);
      assert s.clients[s.pending[id]].id == Some(id);
      ReadingHasNoId(s, c);
    }
    NumberedOk(s, c);
    forall d | d in t.clients ensures ClientOk(t, d) {
      if d != c {
        Untouched(s, t, d);
      }
    }
    ReadingHasNoId(s, c);
  }

  lemma ReadingHasNoId(s: Bridge, c: nat)
    requires At(s, c, Reading) && ClientOk(s, c)
    ensures s.clients[c].id.None? && s.clients[c].got.None?
  {
    hide IdOf, Listed;
  }

  lemma NumberIsNew(s: Bridge, d: nat)
    requires d in s.clients && ClientOk(s, d) && s.counter < COUNTER_LIMIT
    ensures s.clients[d].id != Some(IdOf(s.counter))
  {
    hide IdOf, Listed, Consistent;
    if s.clients[d].id == Some(IdOf(s.counter)) {
      var n :| 1 <= n < s.counter && s.clients[d].id.value == IdOf(n);
      IdsDistinct(n, s.counter);
    }
  }

  lemma NumberedOk(s: Bridge, c: nat)
    requires Inv(s) && At(s, c, Reading) && s.counter < COUNTER_LIMIT
    requires forall d :: d in s.clients ==> s.clients[d].id != Some(IdOf(s.counter))
    ensures ClientOk(Step(s, TakeNumber(c)), c)
  {
    hide IdOf;
    var id := IdOf(s.counter);
    assert ClientOk(s, c);
    assert id in s.pending ==> EntryOk(s, id);
    assert 1 <= s.counter < s.counter + 1;
  }

  lemma RegisterKeeps(s: Bridge, c: nat)
    requires Inv(s) && Enabled(s, Register(c))
    ensures Inv(Step(s, Register(c)))
  {
    hide ClientOk, IdOf;
    var t := Step(s, Register(c));
    RegisteredOk(s, c);
    var id := s.clients[c].id.value;
    forall d | d in t.clients ensures ClientOk(t, d) {
      if d != c {
        assert s.clients[d].id != Some(id);
        Untouched(s, t, d);
      }
    }
    forall k | k in t.pending ensures EntryOk(t, k) {
      if k != id {
        assert EntryOk(s, k);
      }
    }
  }

  lemma RegisteredOk(s: Bridge, c: nat)
    requires Inv(s) && Enabled(s, Register(c))
    ensures ClientOk(Step(s, Register(c)), c)
  {
    hide IdOf;
    assert ClientOk(s, c);
  }

  /** An id leaves the pending map: only the client it belongs to notices. */
  lemma RemoveKeeps(s: Bridge, t: Bridge, c: nat, id: string)
    requires Inv(s) && c in s.clients && s.clients[c].id == Some(id)
    requires c in t.clients && t.clients[c].id == Some(id) && s.arrived <= t.arrived
    requires t == Bridge(s.counter, s.pending - {id}, s.clients[c := t.clients[c]], s.chromeOpen, t.arrived)
    requires t.clients[c].got == s.clients[c].got || (t.clients[c].got.Some? && t.clients[c].got.value.index == s.arrived)
    requires ClientOk(t, c)
    ensures Inv(t)
  {
    hide ClientOk, IdOf;
    forall d | d in t.clients ensures ClientOk(t, d) {
      if d != c {
        assert s.clients[d].id != Some(id);
        Untouched(s, t, d);
      }
    }
    forall k | k in t.pending ensures EntryOk(t, k) {
      assert EntryOk(s, k);
    }
    forall d | d in s.clients && s.clients[d].got.Some?
      ensures s.clients[d].got.value.index < s.arrived
    {
      GotIsOld(s, d);
    }
  }

  lemma GotIsOld(s: Bridge, d: nat)
    requires d in s.clients && ClientOk(s, d) && s.clients[d].got.Some?
    ensures s.clients[d].got.value.index < s.arrived
  {
    hide IdOf, Listed;
  }

  lemma ArriveKeeps(s: Bridge, r: Response)
    requires Inv(s)
    ensures Inv(Step(s, Arrive(r)))
  {
    hide ClientOk, IdOf;
    var t := Step(s, Arrive(r));
    if r.requestId.Some? && r.requestId.value in s.pending {
      var id := r.requestId.value;
      assert EntryOk(s, id);
      var c := s.pending[id];
      DeliveredOk(s, r, c);
      RemoveKeeps(s, t, c, id);
    } else {
      forall d | d in t.clients ensures ClientOk(t, d) {
        Untouched(s, t, d);
      }
      forall k | k in t.pending ensures EntryOk(t, k) {
        assert EntryOk(s, k);
      }
    }
  }

  lemma DeliveredOk(s: Bridge, r: Response, c: nat)
    requires Inv(s) && r.requestId.Some? && r.requestId.value in s.pending && s.pending[r.requestId.value] == c
    requires c in s.clients && s.clients[c].id == r.requestId
    ensures ClientOk(Step(s, Arrive(r)), c)
  {
    hide IdOf;
    assert ClientOk(s, c);
  }

  lemma GiveUpKeeps(s: Bridge, c: nat)
    requires Inv(s) && Enabled(s, GiveUp(c))
    ensures Inv(Step(s, GiveUp(c)))
  {
    GaveUpOk(s, c);
    hide ClientOk, IdOf;
    RemoveKeeps(s, Step(s, GiveUp(c)), c, s.clients[c].id.value);
  }

  lemma GaveUpOk(s: Bridge, c: nat)
    requires Inv(s) && Enabled(s, GiveUp(c))
    ensures ClientOk(Step(s, GiveUp(c)), c)
  {
    hide IdOf;
    assert ClientOk(s, c);
  }

  /** The steps that change one client only. */
  predicate IsLocal(a: Action) {
    a.ReadFails? || a.RejectCommand? || a.Panic? || a.Send? || a.SendFails? || a.Receive? || a.Expire? || a.Write?
  }

  /** A client that keeps its id keeps its number and its entry. */
  lemma SameEntry(s: Bridge, c: nat, client: Client)
    requires c in s.clients && client.id == s.clients[c].id
    ensures HasNumber(s, s.clients[c]) ==> HasNumber(With(s, c, client), client)
    ensures Listed(With(s, c, client), c) <==> Listed(s, c)
  {
    hide IdOf;
  }

  lemma EndsOk(s: Bridge, a: Action, listed: bool)
    requires IsLocal(a) && Enabled(s, a) && (a.ReadFails? || a.RejectCommand? || a.Panic? || a.SendFails?)
    requires Consistent(s, s.clients[a.c]) && ListingOk(s.clients[a.c], listed)
    ensures var t := Step(s, a); Consistent(t, t.clients[a.c]) && ListingOk(t.clients[a.c], listed)
  {
  }

  lemma WaitsOk(s: Bridge, a: Action, listed: bool)
    requires IsLocal(a) && Enabled(s, a) && (a.Send? || a.Expire?)
    requires Consistent(s, s.clients[a.c]) && ListingOk(s.clients[a.c], listed)
    ensures var t := Step(s, a); Consistent(t, t.clients[a.c]) && ListingOk(t.clients[a.c], listed)
  {
  }

  lemma AnswersOk(s: Bridge, a: Action, listed: bool)
    requires IsLocal(a) && Enabled(s, a) && (a.Receive? || a.Write?)
    requires Consistent(s, s.clients[a.c]) && ListingOk(s.clients[a.c], listed)
    ensures var t := Step(s, a); Consistent(t, t.clients[a.c]) && ListingOk(t.clients[a.c], listed)
  {
  }

  lemma LocalShape(s: Bridge, a: Action)
    requires IsLocal(a) && Enabled(s, a)
    ensures a.c in s.clients && a.c in Step(s, a).clients
    ensures Step(s, a) == With(s, a.c, Step(s, a).clients[a.c])
    ensures Step(s, a).clients[a.c].id == s.clients[a.c].id && Step(s, a).clients[a.c].got == s.clients[a.c].got
  {
  }

  lemma LocalOk(s: Bridge, a: Action)
    requires Inv(s) && IsLocal(a) && Enabled(s, a)
    ensures a.c in s.clients && a.c in Step(s, a).clients && ClientOk(Step(s, a), a.c)
  {
    hide HasNumber, Listed, Consistent, ListingOk, Step, Enabled, With;
    LocalShape(s, a);
    assert ClientOk(s, a.c);
    SameEntry(s, a.c, Step(s, a).clients[a.c]);
    if a.Receive? || a.Write? {
      AnswersOk(s, a, Listed(s, a.c));
    } else if a.Send? || a.Expire? {
      WaitsOk(s, a, Listed(s, a.c));
    } else {
      EndsOk(s, a, Listed(s, a.c));
    }
  }

  lemma StepKeepsInv(s: Bridge, a: Action)
    requires Inv(s) && Enabled(s, a) && Step(s, a).counter <= COUNTER_LIMIT
    ensures Inv(Step(s, a))
  {
    hide ClientOk, IdOf;
    match a
    case Connect(c) => ConnectKeeps(s, c);
    case TakeNumber(c) => TakeNumberKeeps(s, c);
    case Register(c) => RegisterKeeps(s, c);
    case Arrive(r) => ArriveKeeps(s, r);
    case GiveUp(c) => GiveUpKeeps(s, c);
    case WriterStops =>
      var t := Step(s, a);
      forall d | d in t.clients ensures ClientOk(t, d) {
        Untouched(s, t, d);
      }
      forall k | k in t.pending ensures EntryOk(t, k) {
        assert EntryOk(s, k);
      }
    case _ =>
      LocalShape(s, a);
      LocalOk(s, a);
      ClientMoves(s, a.c, Step(s, a).clients[a.c]);
  }

  // --- Whole runs ---

  /** The state after some steps, as long as each is enabled in turn. */
  ghost predicate Runs(s: Bridge, actions: seq<Action>, t: Bridge)
    decreases |actions|
  {
    if actions == [] then s == t
    else Enabled(s, actions[0]) && Runs(Step(s, actions[0]), actions[1..], t)
  }

  lemma CounterGrows(s: Bridge, a: Action)
    requires Enabled(s, a)
    ensures s.counter <= Step(s, a).counter
  {
  }

  lemma {:induction false} CounterGrowsAlong(s: Bridge, actions: seq<Action>, t: Bridge)
    requires Runs(s, actions, t)
    ensures s.counter <= t.counter
    decreases |actions|
  {
    hide Enabled, Step;
    if actions != [] {
      CounterGrows(s, actions[0]);
      CounterGrowsAlong(Step(s, actions[0]), actions[1..], t);
    }
  }

  /** The invariant holds along every run that takes fewer numbers than the counter has. */
  lemma {:induction false} RunKeepsInv(s: Bridge, actions: seq<Action>, t: Bridge)
    requires Inv(s) && Runs(s, actions, t) && t.counter <= COUNTER_LIMIT
    ensures Inv(t)
    decreases |actions|
  {
    hide Enabled, Step, Inv;
    if actions != [] {
      CounterGrows(s, actions[0]);
      CounterGrowsAlong(Step(s, actions[0]), actions[1..], t);
      StepKeepsInv(s, actions[0]);
      RunKeepsInv(Step(s, actions[0]), actions[1..], t);
    }
  }

  /** The client got past the send and is done. */
  predicate Served(s: Bridge, c: nat) {
    c in s.clients && s.clients[c].phase == Finished && s.clients[c].sent
  }

  /** The one answer a served client wrote carries its own request id. */
  predicate CarriesId(answer: Answer, id: Option<string>) {
    match answer
    case Reply(d) => d.response.requestId == id
    case TimedOut(r) => id == Some(r)
    case _ => false
  }

  /**
   * In every interleaving: ids are unique; a served client wrote exactly one answer, under its own
   * id, and left nothing in the pending map; no message from Chrome was handed to two clients.
   */
  lemma BridgeSafety(actions: seq<Action>, t: Bridge, c: nat, d: nat)
    requires Runs(START, actions, t) && t.counter <= COUNTER_LIMIT && c in t.clients && d in t.clients
    ensures c != d && t.clients[c].id.Some? ==> t.clients[c].id != t.clients[d].id
    ensures Served(t, c) ==>
              && t.clients[c].id.Some? && t.clients[c].id.value !in t.pending
              && |t.clients[c].written| == 1 && CarriesId(t.clients[c].written[0], t.clients[c].id)
    ensures t.clients[c].got.Some? && t.clients[d].got.Some? && c != d ==>
              t.clients[c].got.value.index != t.clients[d].got.value.index
    ensures t.clients[c].got.Some? ==> t.clients[c].got.value.response.requestId == t.clients[c].id
  {
    hide Enabled, Step, IdOf, Runs;
    InvInit();
    RunKeepsInv(START, actions, t);
    assert ClientOk(t, c) && ClientOk(t, d);
    if t.clients[c].id.Some? && t.clients[c].id.value in t.pending {
      assert EntryOk(t, t.clients[c].id.value);
    }
  }

  /**
   * In every interleaving: of the finished clients with an id, exactly those whose send failed and whose
   * id Chrome has not named since still have an entry in the pending map.
   */
  lemma LeftoverEntriesIff(actions: seq<Action>, t: Bridge, c: nat)
    requires Runs(START, actions, t) && t.counter <= COUNTER_LIMIT
    requires At(t, c, Finished) && t.clients[c].id.Some?
    ensures t.clients[c].id.value in t.pending <==> t.clients[c].written == [Disconnected] && t.clients[c].got.None?
  {
    hide Enabled, Step, IdOf, Runs, Consistent;
    InvInit();
    RunKeepsInv(START, actions, t);
    assert ClientOk(t, c);
    if t.clients[c].id.value in t.pending {
      assert EntryOk(t, t.clients[c].id.value);
    }
  }

  /** A response to a client that still waits reaches exactly that client. */
  lemma WaitingClientIsReached(actions: seq<Action>, t: Bridge, c: nat, r: Response)
    requires Runs(START, actions, t) && t.counter <= COUNTER_LIMIT
    requires At(t, c, Waiting) && t.clients[c].got.None? && r.requestId == t.clients[c].id
    ensures Step(t, Arrive(r)).clients == t.clients[c := t.clients[c].(got := Some(Delivery(t.arrived, r)))]
    ensures Enabled(Step(t, Arrive(r)), Receive(c))
  {
    hide IdOf, Runs;
    InvInit();
    RunKeepsInv(START, actions, t);
    assert ClientOk(t, c);
  }

  /** The one leak: a client whose send failed keeps its entry until Chrome happens to name it. */
  lemma FailedSendLeavesEntry()
    ensures var actions := [Connect(0), TakeNumber(0), Register(0), WriterStops, SendFails(0)];
            exists t :: Runs(START, actions, t) && At(t, 0, Finished) && IdOf(1) in t.pending
  {
    hide IdOf;
    var actions := [Connect(0), TakeNumber(0), Register(0), WriterStops, SendFails(0)];
    var s1 := Step(START, actions[0]);
    var s2 := Step(s1, actions[1]);
    var s3 := Step(s2, actions[2]);
    var s4 := Step(s3, actions[3]);
    var t := Step(s4, actions[4]);
    assert actions[1..][1..] == actions[2..] && actions[2..][1..] == actions[3..] && actions[3..][1..] == actions[4..];
    assert Runs(t, [], t);
    assert actions[4..][1..] == [];
    assert Runs(s4, actions[4..], t);
    assert Runs(s3, actions[3..], t);
    assert Runs(s2, actions[2..], t);
    assert Runs(s1, actions[1..], t);
    assert Runs(START, actions, t);
  }

  // --- What each client was written ---

  /** A client that is not done was written nothing, and what it is to be written is an answer from Chrome or a timeout. */
  predicate Quiet(s: Bridge, c: nat) {
    c in s.clients && s.clients[c].phase != Finished ==>
      && s.clients[c].written == []
      && (s.clients[c].phase.Answering? ==> IsReplyOrTimeout(s.clients[c].phase.answer))
  }

  predicate IsReplyOrTimeout(answer: Answer) {
    answer.Reply? || answer.TimedOut?
  }

  predicate EndsWriting(a: Action, c: nat) {
    a == RejectCommand(c) || a == SendFails(c) || a == Write(c)
  }

  lemma QuietStep(s: Bridge, a: Action, c: nat)
    requires Enabled(s, a) && Quiet(s, c)
    ensures Quiet(Step(s, a), c) && (c in s.clients ==> c in Step(s, a).clients)
    ensures At(s, c, Finished) ==>
              At(Step(s, a), c, Finished) && Step(s, a).clients[c].written == s.clients[c].written && !EndsWriting(a, c)
    ensures EndsWriting(a, c) ==> At(Step(s, a), c, Finished)
    ensures a == RejectCommand(c) ==> Step(s, a).clients[c].written == [InvalidCommand]
    ensures a == SendFails(c) ==> Step(s, a).clients[c].written == [Disconnected]
    ensures a == Write(c) ==>
              |Step(s, a).clients[c].written| == 1 && IsReplyOrTimeout(Step(s, a).clients[c].written[0])
    ensures c in Step(s, a).clients && !At(s, c, Finished) && !EndsWriting(a, c) ==> Step(s, a).clients[c].written == []
  {
    hide IdOf;
  }

  /** Nothing is written to a client that is done. */
  lemma {:induction false} DoneStays(s: Bridge, actions: seq<Action>, t: Bridge, c: nat)
    requires Runs(s, actions, t) && At(s, c, Finished)
    ensures At(t, c, Finished) && t.clients[c].written == s.clients[c].written
    ensures forall a :: a in actions ==> !EndsWriting(a, c)
    decreases |actions|
  {
    hide Enabled, Step, EndsWriting;
    if actions != [] {
      QuietStep(s, actions[0], c);
      DoneStays(Step(s, actions[0]), actions[1..], t, c);
      assert forall a :: a in actions <==> a == actions[0] || a in actions[1..];
    }
  }

  /** What a client was written, by the steps the run took for it. */
  ghost predicate WrittenAsTold(actions: seq<Action>, c: nat, written: seq<Answer>) {
    && (RejectCommand(c) in actions ==> written == [InvalidCommand])
    && (SendFails(c) in actions ==> written == [Disconnected])
    && (Write(c) in actions ==> |written| == 1 && IsReplyOrTimeout(written[0]))
    && ((forall a :: a in actions ==> !EndsWriting(a, c)) ==> written == [])
  }

  lemma {:induction false} WrittenAlong(s: Bridge, actions: seq<Action>, t: Bridge, c: nat)
    requires Runs(s, actions, t) && Quiet(s, c) && !At(s, c, Finished) && c in t.clients
    ensures WrittenAsTold(actions, c, t.clients[c].written)
    decreases |actions|
  {
    hide Enabled, Step;
    if actions != [] {
      var a, rest := actions[0], actions[1..];
      QuietStep(s, a, c);
      assert forall x :: x in actions <==> x == a || x in rest;
      if At(Step(s, a), c, Finished) {
        DoneStays(Step(s, a), rest, t, c);
      } else {
        WrittenAlong(Step(s, a), rest, t, c);
      }
    }
  }

  /**
   * In every interleaving: a client whose command was invalid is written just that, one whose send failed just
   * that, one that was answered one reply or timeout, and any other, such as one whose read failed, nothing.
   */
  lemma WrittenByHistory(actions: seq<Action>, t: Bridge, c: nat)
    requires Runs(START, actions, t) && c in t.clients
    ensures WrittenAsTold(actions, c, t.clients[c].written)
  {
    hide Runs, WrittenAsTold;
    WrittenAlong(START, actions, t, c);
  }

  /** A response that has reached a waiting client is its answer, whatever happens next. */
  lemma {:induction false} ReceivedIsAnswered(s: Bridge, actions: seq<Action>, t: Bridge, c: nat, d: Delivery)
    requires Runs(s, actions, t) && c in s.clients
    requires HoldsAnswer(s.clients[c], d) && Inv(s) && t.counter <= COUNTER_LIMIT
    ensures c in t.clients && HoldsAnswer(t.clients[c], d)
    decreases |actions|
  {
    hide Enabled, Step, Inv, HoldsAnswer;
    if actions != [] {
      CounterGrows(s, actions[0]);
      CounterGrowsAlong(Step(s, actions[0]), actions[1..], t);
      StepKeepsInv(s, actions[0]);
      AnswerHeld(s, actions[0], c, d);
      ReceivedIsAnswered(Step(s, actions[0]), actions[1..], t, c, d);
    }
  }

  /** The client has the response in its channel, is about to write it, or has written it. */
  predicate HoldsAnswer(client: Client, d: Delivery) {
    || (client.phase == Waiting && client.got == Some(d))
    || (client.phase == Answering(Reply(d)))
    || (client.phase == Finished && client.written == [Reply(d)])
  }

  lemma AnswerHeld(s: Bridge, a: Action, c: nat, d: Delivery)
    requires Inv(s) && Enabled(s, a) && c in s.clients && HoldsAnswer(s.clients[c], d)
    ensures c in Step(s, a).clients && HoldsAnswer(Step(s, a).clients[c], d)
  {
    hide IdOf, ClientOk, HoldsAnswer, IdsUnique, DeliveriesUnique, Step;
    assert ClientOk(s, c);
    if a.Arrive? {
      if a.response.requestId.Some? && a.response.requestId.value in s.pending {
        assert EntryOk(s, a.response.requestId.value);
      }
      AnswerHeldOnArrive(s, a.response, c, d);
    } else if a.WriterStops? || a.c != c {
      OthersUntouched(s, a, c);
    } else {
      OwnStepHolds(s, a, d);
    }
  }

  lemma AnswerHeldOnArrive(s: Bridge, r: Response, c: nat, d: Delivery)
    requires c in s.clients && ClientOk(s, c) && HoldsAnswer(s.clients[c], d)
    requires r.requestId.Some? && r.requestId.value in s.pending ==> EntryOk(s, r.requestId.value)
    ensures c in Step(s, Arrive(r)).clients && HoldsAnswer(Step(s, Arrive(r)).clients[c], d)
  {
    hide HasNumber;
  }

  lemma OthersUntouched(s: Bridge, a: Action, c: nat)
    requires Enabled(s, a) && c in s.clients && !a.Arrive? && (a.WriterStops? || a.c != c)
    ensures c in Step(s, a).clients && Step(s, a).clients[c] == s.clients[c]
  {
    hide IdOf;
  }

  lemma OwnStepHolds(s: Bridge, a: Action, d: Delivery)
    requires !a.Arrive? && !a.WriterStops? && Enabled(s, a) && a.c in s.clients
    requires ClientOk(s, a.c) && HoldsAnswer(s.clients[a.c], d)
    ensures a.c in Step(s, a).clients && HoldsAnswer(Step(s, a).clients[a.c], d)
  {
    hide IdOf, HasNumber, Listed, ListingOk;
  }

  /** Once the writer has stopped, no further command is sent. */
  lemma {:induction false} StoppedWriterSendsNothing(s: Bridge, actions: seq<Action>, t: Bridge, c: nat)
    requires Runs(s, actions, t) && !s.chromeOpen
    ensures !t.chromeOpen && (c in t.clients && t.clients[c].sent ==> c in s.clients && s.clients[c].sent)
    ensures WriterStops !in actions && forall d :: Send(d) !in actions
    decreases |actions|
  {
    hide Enabled, Step;
    if actions != [] {
      StoppedStep(s, actions[0], c);
      StoppedWriterSendsNothing(Step(s, actions[0]), actions[1..], t, c);
      assert forall a :: a in actions <==> a == actions[0] || a in actions[1..];
    }
  }

  lemma StoppedStep(s: Bridge, a: Action, c: nat)
    requires Enabled(s, a) && !s.chromeOpen
    ensures !Step(s, a).chromeOpen && !a.WriterStops? && !a.Send?
    ensures c in Step(s, a).clients && Step(s, a).clients[c].sent ==> c in s.clients && s.clients[c].sent
  {
    hide IdOf;
  }

  lemma {:induction false} WriterStopped(s: Bridge, actions: seq<Action>, t: Bridge)
    requires Runs(s, actions, t)
    ensures t.chromeOpen <==> s.chromeOpen && WriterStops !in actions
    decreases |actions|
  {
    hide Enabled, Step;
    if actions != [] {
      WriterStep(s, actions[0]);
      WriterStopped(Step(s, actions[0]), actions[1..], t);
      assert forall a :: a in actions <==> a == actions[0] || a in actions[1..];
    }
  }

  lemma WriterStep(s: Bridge, a: Action)
    requires Enabled(s, a)
    ensures Step(s, a).chromeOpen <==> s.chromeOpen && !a.WriterStops?
  {
    hide IdOf;
  }

  // --- How ids are spelled ---

  function DigitValue(c: char): nat {
    if '0' <= c <= '9' then (c - '0') as nat else 10
  }

  function DecimalValue(s: string): nat {
    if s == "" then 0 else 10 * DecimalValue(s[..|s| - 1]) + DigitValue(s[|s| - 1])
  }

  lemma {:induction false} DecimalReads(n: nat)
    ensures DecimalValue(Decimal(n)) == n
    ensures forall i :: 0 <= i < |Decimal(n)| ==> '0' <= Decimal(n)[i] <= '9'
    ensures n > 0 ==> Decimal(n)[0] != '0'
  {
    var s := Decimal(n);
    if n < 10 {
      assert s[..0] == "";
    } else {
      DecimalReads(n / 10);
      assert s[..|s| - 1] == Decimal(n / 10) && s[0] == Decimal(n / 10)[0];
    }
  }

  /** An id is `rt-` and the number in decimal, modulo 2^64. */
  lemma IdSpelled(n: nat)
    ensures |IdOf(n)| > 3 && IdOf(n)[..3] == "rt-" && DecimalValue(IdOf(n)[3..]) == n % 18446744073709551616
    ensures forall i :: 3 <= i < |IdOf(n)| ==> '0' <= IdOf(n)[i] <= '9'
  {
    hide Decimal;
    DecimalReads(n % COUNTER_LIMIT);
    assert IdOf(n)[3..] == Decimal(n % COUNTER_LIMIT);
  }

  /** A send fails only once the writer has stopped. */
  lemma {:induction false} FailedSendMeansStopped(s: Bridge, actions: seq<Action>, t: Bridge, c: nat)
    requires Runs(s, actions, t) && s.chromeOpen && SendFails(c) in actions
    ensures WriterStops in actions
    decreases |actions|
  {
    hide Step;
    if actions[0] != SendFails(c) && !actions[0].WriterStops? {
      WriterStep(s, actions[0]);
      FailedSendMeansStopped(Step(s, actions[0]), actions[1..], t, c);
    }
  }
}
