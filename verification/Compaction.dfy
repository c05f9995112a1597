/** Compacting a conversation: which messages go, which stay, and what stands in for them. */
module Compaction {
  import opened Text
  import opened SummaryText
  import StreamTypes

  datatype Role = System | User | Assistant | Tool

  datatype Block =
    | TextBlock(text: string)
    | ThinkingBlock(thinking: string, signature: Option<string>)
    | ToolUse(id: string, name: string, input: string)
    | ToolResult(toolUseId: string, toolName: string, output: string, isError: bool)

  datatype Message = Message(role: Role, blocks: seq<Block>)

  datatype CompactionRecord = CompactionRecord(count: nat, removedMessageCount: nat, summary: string)

  datatype Session = Session(messages: seq<Message>, compaction: Option<CompactionRecord>)

  datatype Config = Config(preserveRecentMessages: nat, maxEstimatedTokens: nat)

  datatype CompactionResult = CompactionResult(
    summary: string, formattedSummary: string, session: Session, removedMessageCount: nat)

  /** Turns the removed messages into the text of a summary. */
  type Summarizer = seq<Message> -> string

  // --- When to compact ---

  /** Length in UTF-8 bytes. */
  function ByteLength(s: string): nat {
    |StreamTypes.Utf8(s)|
  }

  function BlockTokens(b: Block): nat {
    match b
    case TextBlock(text) => ByteLength(text) / 4 + 1
    case ToolUse(_, name, input) => (ByteLength(name) + ByteLength(input)) / 4 + 1
    case ToolResult(_, name, output, _) => (ByteLength(name) + ByteLength(output)) / 4 + 1
    case ThinkingBlock(thinking, signature) =>
      ByteLength(thinking) / 4 + (match signature case Some(s) => ByteLength(s) / 4 + 1 case None => 0)
  }

  function BlocksTokens(blocks: seq<Block>): nat {
    if blocks == [] then 0 else BlockTokens(blocks[0]) + BlocksTokens(blocks[1..])
  }

  function Tokens(messages: seq<Message>): nat {
    if messages == [] then 0 else BlocksTokens(messages[0].blocks) + Tokens(messages[1..])
  }

  function FirstTextBlock(blocks: seq<Block>): Option<string> {
    if blocks == [] then None
    else if blocks[0].TextBlock? && !IsBlank(blocks[0].text) then Some(blocks[0].text)
    else FirstTextBlock(blocks[1..])
  }

  function ExistingSummary(m: Message): Option<string> {
    if m.role != System then None
    else
      match FirstTextBlock(m.blocks)
      case Some(text) => RecoverSummary(text)
      case None => None
  }

  function HeadSummary(messages: seq<Message>): Option<string> {
    if messages == [] then None else ExistingSummary(messages[0])
  }

  function PrefixLength(messages: seq<Message>): (n: nat)
    ensures n <= |messages|
  {
    if HeadSummary(messages).Some? then 1 else 0
  }

  predicate ShouldCompact(messages: seq<Message>, config: Config) {
    var compactable := messages[PrefixLength(messages)..];
    |compactable| > config.preserveRecentMessages && Tokens(compactable) >= config.maxEstimatedTokens
  }

  // --- Where to cut ---

  predicate IsToolResult(m: Message) {
    m.blocks != [] && m.blocks[0].ToolResult?
  }

  predicate HasToolUse(m: Message) {
    exists b :: b in m.blocks && b.ToolUse?
  }

  /** Walks the cut back from the front of a block of tool results to the call they answer. */
  function Boundary(messages: seq<Message>, prefix: nat, k: nat): (r: nat)
    requires k <= |messages|
    ensures r <= k && (prefix <= k ==> prefix <= r)
  {
    if k == 0 || k <= prefix || k >= |messages| then k
    else if !IsToolResult(messages[k]) then k
    else if HasToolUse(messages[k - 1]) then k - 1
    else Boundary(messages, prefix, k - 1)
  }

  method WalkBack(messages: seq<Message>, prefix: nat, rawKeepFrom: nat) returns (k: nat)
    requires rawKeepFrom <= |messages|
    ensures k == Boundary(messages, prefix, rawKeepFrom)
  {
    k := rawKeepFrom;
    while true
      invariant k <= |messages|
      invariant Boundary(messages, prefix, k) == Boundary(messages, prefix, rawKeepFrom)
      decreases k
    {
      if k == 0 || k <= prefix || k >= |messages| {
        break;
      }
      if !IsToolResult(messages[k]) {
        break;
      }
      if HasToolUse(messages[k - 1]) {
        k := k - 1;
        break;
      }
      k := k - 1;
    }
  }

  function RawKeepFrom(messages: seq<Message>, config: Config): (k: nat)
    ensures k <= |messages|
  {
    if config.preserveRecentMessages == 0 then |messages|
    else if config.preserveRecentMessages > |messages| then 0
    else |messages| - config.preserveRecentMessages
  }

  function KeepFrom(messages: seq<Message>, config: Config): (k: nat)
    ensures k <= |messages|
  {
    Boundary(messages, PrefixLength(messages), RawKeepFrom(messages, config))
  }

  // --- Compacting ---

  function SummaryMessage(summary: string, recentPreserved: bool): Message {
    Message(System, [TextBlock(ContinuationMessage(summary, true, recentPreserved))])
  }

  function RecordCompaction(session: Session, messages: seq<Message>, summary: string, removed: nat): Session {
    var count := match session.compaction case Some(c) => c.count + 1 case None => 1;
    Session(messages, Some(CompactionRecord(count, removed, summary)))
  }

  lemma CutInRange(messages: seq<Message>, config: Config)
    requires ShouldCompact(messages, config)
    ensures PrefixLength(messages) <= KeepFrom(messages, config) <= |messages|
  {
    hide HeadSummary, Tokens;
  }

  function Removed(messages: seq<Message>, config: Config): seq<Message>
    requires ShouldCompact(messages, config)
  {
    CutInRange(messages, config);
    messages[PrefixLength(messages)..KeepFrom(messages, config)]
  }

  function Preserved(messages: seq<Message>, config: Config): seq<Message> {
    messages[KeepFrom(messages, config)..]
  }

  function NewSummary(summarize: Summarizer, messages: seq<Message>, config: Config): string
    requires ShouldCompact(messages, config)
  {
    Merge(HeadSummary(messages), summarize(Removed(messages, config)))
  }

  function Compacted(summarize: Summarizer, session: Session, config: Config): CompactionResult {
    var messages := session.messages;
    if !ShouldCompact(messages, config) then CompactionResult("", "", session, 0)
    else
      var summary := NewSummary(summarize, messages, config);
      var kept := Preserved(messages, config);
      var removed := |Removed(messages, config)|;
      CompactionResult(
        summary, Format(summary),
        RecordCompaction(session, [SummaryMessage(summary, kept != [])] + kept, summary, removed), removed)
  }

  method CompactSession(summarize: Summarizer, session: Session, config: Config) returns (r: CompactionResult)
    ensures r == Compacted(summarize, session, config)
  {
    hide Merge, Format, ContinuationMessage, HeadSummary, Tokens, Boundary;
    var messages := session.messages;
    if !ShouldCompact(messages, config) {
      return CompactionResult("", "", session, 0);
    }
    var existing := HeadSummary(messages);
    var prefix := if existing.Some? then 1 else 0;
    var raw := if config.preserveRecentMessages == 0 then |messages|
               else if |messages| >= config.preserveRecentMessages then |messages| - config.preserveRecentMessages
               else 0;
    var keepFrom := WalkBack(messages, prefix, raw);
    CutInRange(messages, config);
    var removed := messages[prefix..keepFrom];
    var kept := messages[keepFrom..];
    var summary := MergeCompactSummaries(existing, summarize(removed));
    var compacted := [SummaryMessage(summary, kept != [])];
    compacted := compacted + kept;
    r := CompactionResult(summary, Format(summary), RecordCompaction(session, compacted, summary, |removed|), |removed|);
  }
}
