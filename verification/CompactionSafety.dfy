/** What compaction keeps: message order, tool pairing, and the earlier context. */
module CompactionSafety {
  import opened Text
  import opened SummaryText
  import opened SummaryRoundTrip
  import opened SummarySurvival
  import opened Compaction

  // --- Conservation and the fixpoint ---

  /** The old summary, the removed messages and the preserved ones are the session, in order. */
  lemma MessagesConserved(summarize: Summarizer, session: Session, config: Config)
    requires ShouldCompact(session.messages, config)
    ensures var r := Compacted(summarize, session, config);
            var removed := Removed(session.messages, config);
            && session.messages == session.messages[..PrefixLength(session.messages)] + removed + r.session.messages[1..]
            && r.removedMessageCount == |removed|
            && |r.session.messages[1..]| >= config.preserveRecentMessages
  {
    hide HeadSummary, Tokens, NewSummary, SummaryMessage, Boundary;
    var messages := session.messages;
    CutInRange(messages, config);
    var p, k := PrefixLength(messages), KeepFrom(messages, config);
    assert messages == messages[..p] + messages[p..k] + messages[k..];
    var kept := Preserved(messages, config);
    assert ([SummaryMessage(NewSummary(summarize, messages, config), kept != [])] + kept)[1..] == kept;
    assert k <= RawKeepFrom(messages, config);
  }

  /** A summary message is always recognised as one. */
  lemma SummaryRecognised(summary: string, recentPreserved: bool)
    ensures ExistingSummary(SummaryMessage(summary, recentPreserved)).Some?
    ensures ExistingSummary(SummaryMessage(summary, recentPreserved))
            == RecoverSummary(ContinuationMessage(summary, true, recentPreserved))
  {
    hide Format, Instruction, ResumeInstruction, Trim, Before, PREAMBLE;
    var text := ContinuationMessage(summary, true, recentPreserved);
    assert text[..|PREAMBLE|] == PREAMBLE;
    PreambleInk();
    assert text[0] == 'T';
    NotBlank(text);
  }

  lemma NotBlank(text: string)
    requires text != "" && !IsWhitespace(text[0])
    ensures !IsBlank(text)
  {
    TrimStartTrimmed(text);
    InkStays(text);
  }

  lemma {:induction false} FirstTextBehind(front: seq<Block>, text: string, rest: seq<Block>)
    requires (forall b :: b in front && b.TextBlock? ==> IsBlank(b.text)) && !IsBlank(text)
    ensures FirstTextBlock(front + ([TextBlock(text)] + rest)) == Some(text)
  {
    hide IsBlank;
    var blocks := front + ([TextBlock(text)] + rest);
    if front == [] {
      assert blocks == [TextBlock(text)] + rest;
    } else {
      assert front[0] in front;
      FirstTextBehind(front[1..], text, rest);
      assert blocks[1..] == front[1..] + ([TextBlock(text)] + rest);
    }
  }

  /** The summary of a system message is looked for in its first visible text; other roles carry none. */
  lemma SummaryIsFirstText(role: Role, front: seq<Block>, text: string, rest: seq<Block>)
    requires (forall b :: b in front && b.TextBlock? ==> IsBlank(b.text)) && !IsBlank(text)
    ensures var found := ExistingSummary(Message(role, front + ([TextBlock(text)] + rest)));
            if role.System? then found == RecoverSummary(text) else found.None?
  {
    hide IsBlank, RecoverSummary, FirstTextBlock;
    FirstTextBehind(front, text, rest);
  }

  /** What a compaction reports fits the session it leaves: figures, summary, record and head. */
  lemma ReportFits(summarize: Summarizer, session: Session, config: Config)
    requires ShouldCompact(session.messages, config)
    ensures var r := Compacted(summarize, session, config);
            var left := r.session.messages;
            && left != [] && r.removedMessageCount + |left| - 1 + PrefixLength(session.messages) == |session.messages|
            && left[0].role == System
            && left[0].blocks == [TextBlock(ContinuationMessage(r.summary, true, |left| > 1))]
            && r.formattedSummary == Format(r.summary)
            && r.session.compaction.Some? && r.session.compaction.value.summary == r.summary
            && r.session.compaction.value.removedMessageCount == r.removedMessageCount
  {
    hide ShouldCompact, HeadSummary, ContinuationMessage, Format, NewSummary, KeepFrom;
    CutInRange(session.messages, config);
  }

  predicate BeginsWithResult(m: Message) {
    m.blocks != [] && m.blocks[0].ToolResult?
  }

  /** A tail that does not begin with a tool result is preserved as configured, to the message. */
  lemma TailAsConfigured(summarize: Summarizer, session: Session, config: Config)
    requires ShouldCompact(session.messages, config)
    ensures var n, kept := config.preserveRecentMessages, Compacted(summarize, session, config).session.messages[1..];
            && n <= |session.messages|
            && (n == 0 || !BeginsWithResult(session.messages[|session.messages| - n]) ==>
                  kept == session.messages[|session.messages| - n..])
  {
    hide ShouldCompact, PrefixLength, Preserved, Removed, NewSummary, SummaryMessage, RecordCompaction, Format, BeginsWithResult;
    CompactedShape(summarize, session, config);
    KeptAsConfigured(session.messages, config);
  }

  lemma KeptAsConfigured(messages: seq<Message>, config: Config)
    requires ShouldCompact(messages, config)
    ensures var n := config.preserveRecentMessages;
            && n <= |messages|
            && (n == 0 || !BeginsWithResult(messages[|messages| - n]) ==> Preserved(messages, config) == messages[|messages| - n..])
  {
    hide HeadSummary, Tokens;
  }

  /** Behind a new head, walking back from any message the first walk passed ends at the first cut. */
  lemma {:induction false} SecondWalk(messages: seq<Message>, prefix: nat, o: nat, head: Message)
    requires o < |messages| && prefix <= o
    ensures var k := Boundary(messages, prefix, o);
            Boundary([head] + messages[k..], 1, o - k + 1) == 1
    decreases o
  {
    hide HasToolUse, IsToolResult;
    var k := Boundary(messages, prefix, o);
    var second := [head] + messages[k..];
    if k < o {
      assert second[o - k + 1] == messages[o];
      assert o - k >= 1 && second[o - k] == messages[o - 1];
      if !HasToolUse(messages[o - 1]) {
        SecondWalk(messages, prefix, o - 1, head);
      }
    }
  }

  /** Compacting a compacted session again removes nothing and keeps the tail as it is. */
  lemma CompactionIsFixpoint(summarize: Summarizer, session: Session, config: Config)
    ensures var once := Compacted(summarize, session, config).session;
            var twice := Compacted(summarize, once, config);
            && twice.removedMessageCount == 0
            && |twice.session.messages| == |once.messages|
            && forall i :: 1 <= i < |once.messages| ==> twice.session.messages[i] == once.messages[i]
  {
    hide Tokens, NewSummary, SummaryMessage, KeepFrom, ShouldCompact, PrefixLength, Removed, Preserved, Format;
    var messages := session.messages;
    if ShouldCompact(messages, config) {
      var once := Compacted(summarize, session, config).session;
      CompactedShape(summarize, session, config);
      if ShouldCompact(once.messages, config) {
        CutAgain(messages, config, once.messages[0]);
        CompactedShape(summarize, once, config);
        KeptFromOne(once.messages, config);
      }
    }
  }

  lemma CompactedShape(summarize: Summarizer, session: Session, config: Config)
    requires ShouldCompact(session.messages, config)
    ensures var r := Compacted(summarize, session, config);
            && r.session.messages != []
            && r.session.messages == [r.session.messages[0]] + Preserved(session.messages, config)
            && r.removedMessageCount == |Removed(session.messages, config)|
            && PrefixLength(r.session.messages) == 1
  {
    hide Tokens, NewSummary, SummaryMessage, KeepFrom, ShouldCompact, Removed, Preserved, Format, ExistingSummary;
    var kept := Preserved(session.messages, config);
    SummaryRecognised(NewSummary(summarize, session.messages, config), kept != []);
  }

  lemma KeptFromOne(messages: seq<Message>, config: Config)
    requires ShouldCompact(messages, config) && PrefixLength(messages) == 1 && KeepFrom(messages, config) == 1
    ensures Removed(messages, config) == [] && Preserved(messages, config) == messages[1..]
  {
    hide ShouldCompact, PrefixLength, KeepFrom;
  }

  lemma CutAgain(messages: seq<Message>, config: Config, head: Message)
    requires ShouldCompact(messages, config)
    requires var once := [head] + Preserved(messages, config);
             PrefixLength(once) == 1 && ShouldCompact(once, config)
    ensures KeepFrom([head] + Preserved(messages, config), config) == 1
  {
    hide Tokens, HeadSummary, Boundary;
    var once := [head] + Preserved(messages, config);
    var raw, k := RawKeepFrom(messages, config), KeepFrom(messages, config);
    CutInRange(messages, config);
    NothingLeft(messages, config);
    assert once[1..] == messages[k..];
    SecondWalk(messages, PrefixLength(messages), raw, head);
    assert RawKeepFrom(once, config) == raw - k + 1;
  }

  /** When no recent message is to be preserved, none is. */
  lemma NothingLeft(messages: seq<Message>, config: Config)
    ensures config.preserveRecentMessages == 0 ==> Preserved(messages, config) == []
  {
    hide HeadSummary;
    WholeIsKept(messages, PrefixLength(messages));
  }

  lemma WholeIsKept(messages: seq<Message>, prefix: nat)
    ensures Boundary(messages, prefix, |messages|) == |messages|
  {
  }

  // --- Tool pairing ---

  predicate Uses(m: Message, id: string) {
    exists b :: b in m.blocks && b.ToolUse? && b.id == id
  }

  /** Message `j` makes the call, and only tool results stand between it and position `i`. */
  ghost predicate AnchoredAt(messages: seq<Message>, i: nat, id: string, j: nat)
    requires i <= |messages|
  {
    j < i && Uses(messages[j], id) && forall k :: j < k < i ==> IsToolResult(messages[k])
  }

  /** A result with this id placed at position `i` would directly follow its call. */
  ghost predicate Anchored(messages: seq<Message>, i: nat, id: string)
    requires i <= |messages|
  {
    exists j :: AnchoredAt(messages, i, id, j)
  }

  /** Calls are not made by system messages, nor by messages that open with a tool result. */
  ghost predicate CallsWellPlaced(m: Message) {
    HasToolUse(m) ==> !IsToolResult(m) && m.role != System
  }

  ghost predicate ResultsAnchored(messages: seq<Message>, i: nat)
    requires i < |messages|
  {
    forall b :: b in messages[i].blocks && b.ToolResult? ==>
      IsToolResult(messages[i]) && Anchored(messages, i, b.toolUseId)
  }

  /** Every tool result stands in an unbroken block of tool results behind its call. */
  ghost predicate Paired(messages: seq<Message>) {
    forall i :: 0 <= i < |messages| ==> CallsWellPlaced(messages[i]) && ResultsAnchored(messages, i)
  }

  ghost predicate AllAnchored(messages: seq<Message>) {
    forall i :: 0 <= i < |messages| ==> ResultsAnchored(messages, i)
  }

  lemma ResultHasAnchor(messages: seq<Message>, i: nat) returns (j: nat)
    requires i < |messages| && ResultsAnchored(messages, i) && IsToolResult(messages[i])
    ensures j < i && HasToolUse(messages[j]) && forall k :: j < k < i ==> IsToolResult(messages[k])
  {
    var b := messages[i].blocks[0];
    assert b in messages[i].blocks && b.ToolResult?;
    j :| AnchoredAt(messages, i, b.toolUseId, j);
  }

  /** The last message with a call between the old summary and `o` does not open with a result. */
  ghost predicate CallBefore(messages: seq<Message>, prefix: nat, o: nat)
    requires o <= |messages|
  {
    exists j :: prefix <= j < o && HasToolUse(messages[j]) && !IsToolResult(messages[j])
                && forall m :: j < m < o ==> !HasToolUse(messages[m])
  }

  /** Where the configured number of messages begins, the walk can find a safe cut. */
  ghost predicate CutIsSafe(messages: seq<Message>, config: Config) {
    var o := RawKeepFrom(messages, config);
    o == |messages| || !IsToolResult(messages[o]) || CallBefore(messages, PrefixLength(messages), o)
  }

  /** When the walk ends in front of a message that is no tool result, or behind all messages. */
  lemma {:induction false} WalkEndsSafelyIff(messages: seq<Message>, prefix: nat, o: nat)
    requires AllAnchored(messages) && prefix <= o <= |messages|
    ensures var k := Boundary(messages, prefix, o);
            k == |messages| || !IsToolResult(messages[k])
            <==> o == |messages| || !IsToolResult(messages[o]) || CallBefore(messages, prefix, o)
    decreases o
  {
    hide IsToolResult, HasToolUse, ResultsAnchored;
    if o < |messages| && IsToolResult(messages[o]) && prefix < o {
      var j := ResultHasAnchor(messages, o);
      if !HasToolUse(messages[o - 1]) {
        assert IsToolResult(messages[o - 1]);
        WalkEndsSafelyIff(messages, prefix, o - 1);
        CallBeforeSkips(messages, prefix, o);
      }
    }
  }

  lemma CallBeforeSkips(messages: seq<Message>, prefix: nat, o: nat)
    requires 0 < o <= |messages| && !HasToolUse(messages[o - 1])
    ensures CallBefore(messages, prefix, o) <==> CallBefore(messages, prefix, o - 1)
  {
    hide IsToolResult, HasToolUse;
  }

  lemma TailStartsSafelyIff(messages: seq<Message>, config: Config)
    requires AllAnchored(messages) && ShouldCompact(messages, config)
    ensures var k := KeepFrom(messages, config);
            k == |messages| || !IsToolResult(messages[k]) <==> CutIsSafe(messages, config)
  {
    hide HeadSummary, Tokens, Boundary, IsToolResult, AllAnchored, CallBefore;
    CutInRange(messages, config);
    assert PrefixLength(messages) <= RawKeepFrom(messages, config);
    WalkEndsSafelyIff(messages, PrefixLength(messages), RawKeepFrom(messages, config));
  }

  /** An anchor behind a safe cut is still the anchor after the cut. */
  lemma AnchorShifts(messages: seq<Message>, k: nat, head: Message, i: nat, id: string)
    requires k < i <= |messages| && !IsToolResult(messages[k]) && Anchored(messages, i, id)
    ensures Anchored([head] + messages[k..], i - k + 1, id)
  {
    hide Uses, IsToolResult;
    var j: nat :| AnchoredAt(messages, i, id, j);
    assert j >= k;
    var cut := [head] + messages[k..];
    assert cut[j - k + 1] == messages[j];
    forall m | j - k + 1 < m < i - k + 1
      ensures IsToolResult(cut[m])
    {
      assert cut[m] == messages[m + k - 1];
    }
    assert AnchoredAt(cut, i - k + 1, id, j - k + 1);
  }

  lemma HeadHasNoTools(head: Message)
    requires forall b :: b in head.blocks ==> b.TextBlock?
    ensures !HasToolUse(head) && forall b :: b in head.blocks ==> !b.ToolResult?
  {
  }

  /** A new head in front of the tail keeps every result's call exactly when the tail does not start with a result. */
  lemma CutKeepsAnchorsIff(messages: seq<Message>, k: nat, head: Message)
    requires AllAnchored(messages) && k <= |messages| && forall b :: b in head.blocks ==> b.TextBlock?
    ensures AllAnchored([head] + messages[k..]) <==> k == |messages| || !IsToolResult(messages[k])
  {
    hide IsToolResult, Anchored;
    var cut := [head] + messages[k..];
    if k < |messages| && IsToolResult(messages[k]) {
      assert cut[1] == messages[k];
      var b := FirstBlock(cut[1]);
      NoCallInHead(head, b.toolUseId);
      AnchorOnlyInHead(cut, b.toolUseId);
      assert [cut[0]] == [head];
      assert !ResultsAnchored(cut, 1);
    } else {
      HeadHasNoTools(head);
      forall i | 0 < i < |cut|
        ensures ResultsAnchored(cut, i)
      {
        var o := k + i - 1;
        assert cut[i] == messages[o] && ResultsAnchored(messages, o);
        forall b | b in cut[i].blocks && b.ToolResult?
          ensures IsToolResult(cut[i]) && Anchored(cut, i, b.toolUseId)
        {
          assert o > k;
          AnchorShifts(messages, k, head, o, b.toolUseId);
        }
      }
    }
  }

  /**
   * Compaction keeps every result behind its call exactly when the configured tail does not begin
   * with a result, or the last call in front of it is made by a message that is no result itself.
   */
  lemma AnchorsKeptIff(summarize: Summarizer, session: Session, config: Config)
    requires AllAnchored(session.messages) && ShouldCompact(session.messages, config)
    ensures AllAnchored(Compacted(summarize, session, config).session.messages) <==> CutIsSafe(session.messages, config)
  {
    hide AllAnchored, IsToolResult, NewSummary, ShouldCompact, ContinuationMessage, KeepFrom, PrefixLength, Format, Removed, CutIsSafe;
    var messages := session.messages;
    var kept := Preserved(messages, config);
    var head := SummaryMessage(NewSummary(summarize, messages, config), kept != []);
    assert Compacted(summarize, session, config).session.messages == [head] + kept;
    CutKeepsAnchorsIff(messages, KeepFrom(messages, config), head);
    TailStartsSafelyIff(messages, config);
  }

  // --- Calls made only by messages that are no results ---

  lemma HeadIsSystem(messages: seq<Message>)
    requires PrefixLength(messages) == 1
    ensures messages != [] && messages[0].role == System
  {
  }

  /** When calls are well placed, every cut is safe. */
  lemma WellPlacedCallsCutSafely(messages: seq<Message>, config: Config)
    requires Paired(messages) && ShouldCompact(messages, config)
    ensures AllAnchored(messages) && CutIsSafe(messages, config)
  {
    hide IsToolResult, HasToolUse, ResultsAnchored, HeadSummary, Tokens;
    var p, o := PrefixLength(messages), RawKeepFrom(messages, config);
    if o < |messages| && IsToolResult(messages[o]) {
      var j := ResultHasAnchor(messages, o);
      assert CallsWellPlaced(messages[j]);
      if p == 1 {
        HeadIsSystem(messages);
      }
      forall m | j < m < o
        ensures !HasToolUse(messages[m])
      {
        assert CallsWellPlaced(messages[m]);
      }
    }
  }

  /** Compaction with any configuration then keeps the pairing, and no tail starts with a tool result. */
  lemma CompactionKeepsPairing(summarize: Summarizer, session: Session, config: Config)
    requires Paired(session.messages)
    ensures var after := Compacted(summarize, session, config).session.messages;
            && Paired(after)
            && (ShouldCompact(session.messages, config) && |after| > 1 ==> !IsToolResult(after[1]))
  {
    hide IsToolResult, HasToolUse, ResultsAnchored, NewSummary, ShouldCompact, ContinuationMessage, KeepFrom, PrefixLength, Format, Removed,
         CutIsSafe;
    var messages := session.messages;
    if ShouldCompact(messages, config) {
      WellPlacedCallsCutSafely(messages, config);
      AnchorsKeptIff(summarize, session, config);
      TailStartsSafelyIff(messages, config);
      var k, kept := KeepFrom(messages, config), Preserved(messages, config);
      var head := SummaryMessage(NewSummary(summarize, messages, config), kept != []);
      HeadHasNoTools(head);
      var cut := [head] + kept;
      assert Compacted(summarize, session, config).session.messages == cut;
      forall i | 0 <= i < |cut|
        ensures CallsWellPlaced(cut[i])
      {
        if i > 0 {
          assert cut[i] == messages[k + i - 1];
        }
      }
    }
  }

  // --- Calls made among results ---

  lemma AnchorOnlyInHead(messages: seq<Message>, id: string)
    requires |messages| > 1
    ensures Anchored(messages, 1, id) <==> Anchored([messages[0]], 1, id)
  {
    hide Uses, IsToolResult;
    if Anchored(messages, 1, id) {
      assert AnchoredAt([messages[0]], 1, id, 0);
    }
    if Anchored([messages[0]], 1, id) {
      assert AnchoredAt(messages, 1, id, 0);
    }
  }

  /** A transcript whose second call is made in the message that answers the first. */
  function CallAmongResults(): seq<Message> {
    [Message(User, [TextBlock("go")]),
     Message(Assistant, [ToolUse("a", "read", "")]),
     Message(Tool, [ToolResult("a", "read", "", false), ToolUse("b", "read", "")]),
     Message(Tool, [ToolResult("b", "read", "", false)])]
  }

  lemma CallAmongResultsAnchored()
    ensures AllAnchored(CallAmongResults())
  {
    var messages := CallAmongResults();
    assert messages[1].blocks[0] in messages[1].blocks && messages[2].blocks[1] in messages[2].blocks;
    assert AnchoredAt(messages, 2, "a", 1) && AnchoredAt(messages, 3, "b", 2);
  }

  /** Such a call stops the walk too early: the tail starts with a result whose call is gone. */
  lemma CallAmongResultsSplits(summarize: Summarizer)
    ensures AllAnchored(CallAmongResults())
    ensures !AllAnchored(Compacted(summarize, Session(CallAmongResults(), None), Config(1, 0)).session.messages)
  {
    hide AllAnchored, Compacted, Tokens;
    CallAmongResultsAnchored();
    var messages := CallAmongResults();
    assert HeadSummary(messages).None?;
    assert messages[2].blocks[1] in messages[2].blocks;
    assert HasToolUse(messages[2]) && IsToolResult(messages[2]);
    AnchorsKeptIff(summarize, Session(messages, None), Config(1, 0));
  }

  // --- Whole runs ---

  datatype Op = Push(message: Message) | Compact(config: Config)

  function Apply(summarize: Summarizer, session: Session, op: Op): Session {
    match op
    case Push(m) => session.(messages := session.messages + [m])
    case Compact(config) => Compacted(summarize, session, config).session
  }

  function Run(summarize: Summarizer, session: Session, ops: seq<Op>): Session
    decreases |ops|
  {
    if ops == [] then session else Run(summarize, Apply(summarize, session, ops[0]), ops[1..])
  }

  /** The messages a run pushes, as an uncompacted session would hold them. */
  function Pushed(ops: seq<Op>): seq<Message> {
    if ops == [] then []
    else if ops[0].Push? then [ops[0].message] + Pushed(ops[1..])
    else Pushed(ops[1..])
  }

  /** A call with this id is still waiting for results: one pushed now would directly follow it. */
  ghost predicate Waiting(messages: seq<Message>, id: string) {
    Anchored(messages, |messages|, id)
  }

  /** The session may be continued by any result that could continue the whole transcript. */
  ghost predicate Continues(transcript: seq<Message>, messages: seq<Message>) {
    forall id :: Waiting(transcript, id) ==> Waiting(messages, id)
  }

  lemma AnchorOfPrefix(messages: seq<Message>, m: Message, i: nat, id: string)
    requires i <= |messages|
    ensures Anchored(messages + [m], i, id) <==> Anchored(messages, i, id)
  {
    hide Uses, IsToolResult;
    var more := messages + [m];
    assert forall j :: 0 <= j < i ==> more[j] == messages[j];
    if j: nat :| AnchoredAt(more, i, id, j) {
      assert AnchoredAt(messages, i, id, j);
    }
    if j: nat :| AnchoredAt(messages, i, id, j) {
      assert AnchoredAt(more, i, id, j);
    }
  }

  lemma AnchorAfterPush(messages: seq<Message>, m: Message, id: string)
    ensures Waiting(messages + [m], id) <==> Uses(m, id) || (IsToolResult(m) && Waiting(messages, id))
  {
    hide Uses, IsToolResult;
    var more, n := messages + [m], |messages|;
    assert more[n] == m && forall j :: 0 <= j < n ==> more[j] == messages[j];
    var end := |more|;
    if j: nat :| AnchoredAt(more, end, id, j) {
      if j < n {
        assert AnchoredAt(messages, n, id, j);
      }
    }
    if Uses(m, id) {
      assert AnchoredAt(more, end, id, n);
    }
    if IsToolResult(m) {
      if j: nat :| AnchoredAt(messages, n, id, j) {
        assert AnchoredAt(more, end, id, j);
      }
    }
  }

  /** Every result in the message would directly follow its call. */
  ghost predicate Follows(messages: seq<Message>, m: Message) {
    forall b :: b in m.blocks && b.ToolResult? ==> IsToolResult(m) && Waiting(messages, b.toolUseId)
  }

  lemma AnchoredAfterPush(messages: seq<Message>, m: Message)
    ensures AllAnchored(messages + [m]) <==> AllAnchored(messages) && Follows(messages, m)
  {
    hide IsToolResult, Anchored;
    var more, n := messages + [m], |messages|;
    assert more[n] == m && forall j :: 0 <= j < n ==> more[j] == messages[j];
    forall i: nat, id: string | i <= n
      ensures Anchored(more, i, id) <==> Anchored(messages, i, id)
    {
      AnchorOfPrefix(messages, m, i, id);
    }
    assert Follows(messages, m) <==> ResultsAnchored(more, n);
    forall i | 0 <= i < n
      ensures ResultsAnchored(more, i) <==> ResultsAnchored(messages, i)
    {
    }
  }

  /** The last message may be added to a paired session exactly when it is paired there. */
  ghost predicate Fits(messages: seq<Message>, m: Message) {
    CallsWellPlaced(m) && Follows(messages, m)
  }

  lemma PairedAfterPush(messages: seq<Message>, m: Message)
    ensures Paired(messages + [m]) <==> Paired(messages) && Fits(messages, m)
  {
    hide ResultsAnchored, Follows, CallsWellPlaced;
    var more, n := messages + [m], |messages|;
    assert more[n] == m && forall j :: 0 <= j < n ==> more[j] == messages[j];
    AnchoredAfterPush(messages, m);
  }

  /** A safe cut keeps all calls that wait for results exactly when some message is preserved or none waits. */
  lemma WaitingCallsKeptIff(summarize: Summarizer, session: Session, config: Config)
    requires AllAnchored(session.messages) && ShouldCompact(session.messages, config) && CutIsSafe(session.messages, config)
    ensures Continues(session.messages, Compacted(summarize, session, config).session.messages)
            <==> config.preserveRecentMessages > 0 || forall id :: !Waiting(session.messages, id)
  {
    hide AllAnchored, IsToolResult, NewSummary, ShouldCompact, ContinuationMessage, PrefixLength, Format, Removed, Anchored, Boundary, CutIsSafe;
    var messages := session.messages;
    var k, kept := KeepFrom(messages, config), Preserved(messages, config);
    var head := SummaryMessage(NewSummary(summarize, messages, config), kept != []);
    assert Compacted(summarize, session, config).session.messages == [head] + kept;
    if config.preserveRecentMessages > 0 {
      TailStartsSafelyIff(messages, config);
      TailNotEmpty(messages, config);
      forall id | Waiting(messages, id)
        ensures Waiting([head] + kept, id)
      {
        AnchorShifts(messages, k, head, |messages|, id);
      }
    } else {
      NothingLeft(messages, config);
      assert [head] + kept == [head];
      forall id
        ensures !Waiting([head], id)
      {
        NoCallInHead(head, id);
      }
    }
  }

  lemma TailNotEmpty(messages: seq<Message>, config: Config)
    requires ShouldCompact(messages, config) && config.preserveRecentMessages > 0
    ensures KeepFrom(messages, config) < |messages|
  {
    hide HeadSummary, Tokens, Boundary;
  }

  // --- Exactly which runs keep all results behind their calls ---

  ghost predicate StaysAnchored(summarize: Summarizer, session: Session, ops: seq<Op>)
    decreases |ops|
  {
    AllAnchored(session.messages) && (ops != [] ==> StaysAnchored(summarize, Apply(summarize, session, ops[0]), ops[1..]))
  }

  /** The next message to be pushed, if any, opens with a result. */
  predicate ResultNext(ops: seq<Op>) {
    var pushed := Pushed(ops);
    pushed != [] && IsToolResult(pushed[0])
  }

  /** Every cut of the run is safe, and none drops a call whose result comes next. */
  ghost predicate CutsSafely(summarize: Summarizer, session: Session, ops: seq<Op>)
    decreases |ops|
  {
    ops != [] ==>
      && (ops[0].Compact? && ShouldCompact(session.messages, ops[0].config) ==>
            CutIsSafe(session.messages, ops[0].config) && (ops[0].config.preserveRecentMessages > 0 || !ResultNext(ops[1..])))
      && CutsSafely(summarize, Apply(summarize, session, ops[0]), ops[1..])
  }

  /** What comes next fits behind the session as well as behind the whole transcript. */
  ghost predicate Ready(transcript: seq<Message>, messages: seq<Message>, ops: seq<Op>) {
    Continues(transcript, messages) || !ResultNext(ops)
  }

  /**
   * For every run whose uncompacted transcript has all results behind their calls, the session has them
   * so at every moment, exactly when every triggered compaction cuts safely and, if it preserves
   * nothing, is not followed by a result.
   */
  lemma {:induction false} RunKeepsAnchorsIff(summarize: Summarizer, transcript: seq<Message>, session: Session, ops: seq<Op>)
    requires AllAnchored(session.messages) && Ready(transcript, session.messages, ops)
    requires AllAnchored(transcript + Pushed(ops))
    ensures StaysAnchored(summarize, session, ops) <==> CutsSafely(summarize, session, ops)
    decreases |ops|, 0
  {
    hide AllAnchored, Continues, Compacted, ShouldCompact, CutIsSafe, IsToolResult;
    if ops != [] {
      var op, rest := ops[0], ops[1..];
      var next := Apply(summarize, session, op);
      match op {
        case Push(m) =>
          var later := Pushed(rest);
          assert transcript + Pushed(ops) == (transcript + [m]) + later;
          AnchoredPrefix(transcript + [m], later);
          PushStaysReady(transcript, session.messages, m);
          RunKeepsAnchorsIff(summarize, transcript + [m], next, rest);
        case Compact(config) =>
          if !ShouldCompact(session.messages, config) {
            Untriggered(summarize, session, config);
            RunKeepsAnchorsIff(summarize, transcript, next, rest);
          } else {
            AnchorsKeptIff(summarize, session, config);
            if CutIsSafe(session.messages, config) {
              CompactionStep(summarize, transcript, session, config, rest);
            } else {
              assert !StaysAnchored(summarize, next, rest);
            }
          }
      }
    }
  }

  lemma {:induction false} CompactionStep(summarize: Summarizer, transcript: seq<Message>, session: Session, config: Config, rest: seq<Op>)
    requires AllAnchored(session.messages) && Ready(transcript, session.messages, rest)
    requires AllAnchored(transcript + Pushed(rest))
    requires ShouldCompact(session.messages, config) && CutIsSafe(session.messages, config)
    ensures var next := Compacted(summarize, session, config).session;
            StaysAnchored(summarize, next, rest)
            <==> CutsSafely(summarize, next, rest) && (config.preserveRecentMessages > 0 || !ResultNext(rest))
    decreases |rest|, 1
  {
    hide AllAnchored, Continues, Compacted, ShouldCompact, CutIsSafe, IsToolResult, StaysAnchored, CutsSafely, ResultNext;
    var next := Compacted(summarize, session, config).session;
    AnchorsKeptIff(summarize, session, config);
    if config.preserveRecentMessages > 0 || !ResultNext(rest) {
      WaitingCallsKeptIff(summarize, session, config);
      if config.preserveRecentMessages > 0 && Continues(transcript, session.messages) {
        ContinuesTransitive(transcript, session.messages, next.messages);
      }
      RunKeepsAnchorsIff(summarize, transcript, next, rest);
    } else {
      OnlyHeadLeft(summarize, session, config);
      ResultBehindHead(summarize, next, rest);
    }
  }

  lemma Untriggered(summarize: Summarizer, session: Session, config: Config)
    requires !ShouldCompact(session.messages, config)
    ensures Compacted(summarize, session, config).session == session
  {
  }

  lemma OnlyHeadLeft(summarize: Summarizer, session: Session, config: Config)
    requires ShouldCompact(session.messages, config) && config.preserveRecentMessages == 0
    ensures var after := Compacted(summarize, session, config).session.messages;
            |after| == 1 && PrefixLength(after) == 1 && forall b :: b in after[0].blocks ==> b.TextBlock?
  {
    hide NewSummary, ShouldCompact, ContinuationMessage, PrefixLength, Format, Removed, KeepFrom;
    CompactedShape(summarize, session, config);
    NothingLeft(session.messages, config);
  }

  /** Behind a session that holds only its summary, a result has lost its call. */
  lemma {:induction false} ResultBehindHead(summarize: Summarizer, session: Session, ops: seq<Op>)
    requires |session.messages| == 1 && PrefixLength(session.messages) == 1
    requires forall b :: b in session.messages[0].blocks ==> b.TextBlock?
    requires ResultNext(ops)
    ensures !StaysAnchored(summarize, session, ops)
    decreases |ops|
  {
    hide AllAnchored, Compacted, PrefixLength, IsToolResult;
    var op, rest := ops[0], ops[1..];
    match op
    case Push(m) =>
      var b := FirstBlock(m);
      var head := session.messages[0];
      assert session.messages == [head];
      NoCallInHead(head, b.toolUseId);
      AnchoredAfterPush(session.messages, m);
      assert !StaysAnchored(summarize, Apply(summarize, session, op), rest);
    case Compact(config) =>
      NothingToCompact(session.messages, config);
      Untriggered(summarize, session, config);
      ResultBehindHead(summarize, session, rest);
  }

  lemma NothingToCompact(messages: seq<Message>, config: Config)
    requires |messages| == 1 && PrefixLength(messages) == 1
    ensures !ShouldCompact(messages, config)
  {
    hide PrefixLength, Tokens;
  }

  lemma {:induction false} AnchoredPrefix(messages: seq<Message>, later: seq<Message>)
    requires AllAnchored(messages + later)
    ensures AllAnchored(messages)
    decreases |later|
  {
    hide AllAnchored, Follows;
    if later == [] {
      assert messages + later == messages;
    } else {
      var n := |later| - 1;
      assert messages + later == (messages + later[..n]) + [later[n]];
      AnchoredAfterPush(messages + later[..n], later[n]);
      AnchoredPrefix(messages, later[..n]);
    }
  }

  /** What follows the transcript follows the session, and what comes behind it will again. */
  lemma PushStaysReady(transcript: seq<Message>, messages: seq<Message>, m: Message)
    requires AllAnchored(messages) && AllAnchored(transcript + [m])
    requires Continues(transcript, messages) || !IsToolResult(m)
    ensures AllAnchored(messages + [m]) && Continues(transcript + [m], messages + [m])
  {
    hide AllAnchored, Anchored, IsToolResult, Uses;
    AnchoredAfterPush(transcript, m);
    AnchoredAfterPush(messages, m);
    forall id | Waiting(transcript + [m], id)
      ensures Waiting(messages + [m], id)
    {
      AnchorAfterPush(transcript, m, id);
      AnchorAfterPush(messages, m, id);
    }
  }

  // --- Runs whose calls are well placed ---

  /** Pushes and compactions that preserve some message: the session then stays paired throughout. */
  lemma {:induction false} RunKeepsPairing(summarize: Summarizer, transcript: seq<Message>, session: Session, ops: seq<Op>)
    requires Paired(session.messages) && Continues(transcript, session.messages)
    requires Paired(transcript + Pushed(ops))
    requires forall op :: op in ops && op.Compact? ==> op.config.preserveRecentMessages > 0
    ensures Paired(Run(summarize, session, ops).messages)
    decreases |ops|
  {
    hide Paired, Continues, Compacted, ShouldCompact, AllAnchored, CutIsSafe;
    if ops != [] {
      var op := ops[0];
      assert op in ops;
      var next := Apply(summarize, session, op);
      match op {
        case Push(m) =>
          var later := Pushed(ops[1..]);
          assert transcript + Pushed(ops) == (transcript + [m]) + later;
          PairedPrefix(transcript + [m], later);
          PushContinues(transcript, session.messages, m);
          RunKeepsPairing(summarize, transcript + [m], next, ops[1..]);
        case Compact(config) =>
          CompactionKeepsPairing(summarize, session, config);
          if ShouldCompact(session.messages, config) {
            WellPlacedCallsCutSafely(session.messages, config);
            WaitingCallsKeptIff(summarize, session, config);
            ContinuesTransitive(transcript, session.messages, next.messages);
          } else {
            Untriggered(summarize, session, config);
          }
          RunKeepsPairing(summarize, transcript, next, ops[1..]);
      }
    }
  }

  lemma ContinuesTransitive(a: seq<Message>, b: seq<Message>, c: seq<Message>)
    requires Continues(a, b) && Continues(b, c)
    ensures Continues(a, c)
  {
    hide Waiting;
  }

  lemma {:induction false} PairedPrefix(messages: seq<Message>, later: seq<Message>)
    requires Paired(messages + later)
    ensures Paired(messages)
    decreases |later|
  {
    hide Paired;
    if later == [] {
      assert messages + later == messages;
    } else {
      var n := |later| - 1;
      assert messages + later == (messages + later[..n]) + [later[n]];
      PairedAfterPush(messages + later[..n], later[n]);
      PairedPrefix(messages, later[..n]);
    }
  }

  /** What fits behind the transcript fits behind the compacted session. */
  lemma PushContinues(transcript: seq<Message>, messages: seq<Message>, m: Message)
    requires Paired(messages) && Continues(transcript, messages) && Paired(transcript + [m])
    ensures Paired(messages + [m]) && Continues(transcript + [m], messages + [m])
  {
    hide ResultsAnchored, Continues, Anchored, CallsWellPlaced;
    PairedAfterPush(transcript, m);
    PairedAfterPush(messages, m);
    PushStaysReady(transcript, messages, m);
  }

  /** Preserving nothing drops the call a waiting result would answer, exactly then. */
  lemma WaitingResultStillFitsIff(summarize: Summarizer, session: Session, config: Config, m: Message)
    requires Paired(session.messages) && ShouldCompact(session.messages, config)
    requires IsToolResult(m) && Fits(session.messages, m)
    ensures Fits(Compacted(summarize, session, config).session.messages, m) <==> config.preserveRecentMessages > 0
  {
    hide Paired, ShouldCompact, IsToolResult, NewSummary, ContinuationMessage, PrefixLength, Format, Removed, KeepFrom, Uses, Anchored,
         AllAnchored, CutIsSafe;
    var messages := session.messages;
    var after := Compacted(summarize, session, config).session.messages;
    if config.preserveRecentMessages > 0 {
      WellPlacedCallsCutSafely(messages, config);
      WaitingCallsKeptIff(summarize, session, config);
      assert forall id :: Waiting(messages, id) ==> Waiting(after, id);
    } else {
      NothingLeft(messages, config);
      var head := SummaryMessage(NewSummary(summarize, messages, config), false);
      assert after == [head];
      var b := FirstBlock(m);
      NoCallInHead(head, b.toolUseId);
    }
  }

  lemma FirstBlock(m: Message) returns (b: Block)
    requires IsToolResult(m)
    ensures b in m.blocks && b.ToolResult?
  {
    b := m.blocks[0];
  }

  lemma NoCallInHead(head: Message, id: string)
    requires forall b :: b in head.blocks ==> b.TextBlock?
    ensures !Anchored([head], 1, id)
  {
    assert !Uses(head, id);
  }
}
