/** When a compaction happens, in terms of the bytes and blocks of the conversation. */
module CompactionTrigger {
  import opened Text
  import opened SummaryText
  import opened Compaction
  import CompactionSafety
  import StreamTypes

  /** The text a block holds: what is said, called, answered or thought. */
  function BlockText(b: Block): string {
    match b
    case TextBlock(text) => text
    case ToolUse(_, name, input) => name + input
    case ToolResult(_, name, output, _) => name + output
    case ThinkingBlock(thinking, signature) => thinking + if signature.Some? then signature.value else ""
  }

  function AllBlocks(messages: seq<Message>): seq<Block> {
    if messages == [] then [] else messages[0].blocks + AllBlocks(messages[1..])
  }

  function AllText(blocks: seq<Block>): string {
    if blocks == [] then "" else BlockText(blocks[0]) + AllText(blocks[1..])
  }

  /** The UTF-8 bytes of all texts. */
  function Bytes(blocks: seq<Block>): nat {
    |StreamTypes.Utf8(AllText(blocks))|
  }

  /** What one block counts is a quarter of its bytes, rounded up past the next whole number. */
  lemma BlockBounds(b: Block)
    ensures var n, bytes := BlockTokens(b), |StreamTypes.Utf8(BlockText(b))|;
            && (!b.ThinkingBlock? ==> 4 * (n - 1) <= bytes < 4 * n)
            && (b.ThinkingBlock? && b.signature.None? ==> 4 * n <= bytes < 4 * (n + 1))
            && (b.ThinkingBlock? && b.signature.Some? ==> 4 * (n - 1) <= bytes < 4 * n + 3)
  {
    hide StreamTypes.Utf8;
    match b
    case TextBlock(_) =>
    case ToolUse(_, name, input) => StreamTypes.Utf8Concat(name, input);
    case ToolResult(_, name, output, _) => StreamTypes.Utf8Concat(name, output);
    case ThinkingBlock(thinking, signature) =>
      match signature {
        case Some(s) => StreamTypes.Utf8Concat(thinking, s);
        case None => assert thinking + "" == thinking;
      }
  }

  lemma {:induction false} BlocksBounds(blocks: seq<Block>)
    ensures 4 * BlocksTokens(blocks) <= Bytes(blocks) + 4 * |blocks|
    ensures Bytes(blocks) <= 4 * BlocksTokens(blocks) + 3 * |blocks|
  {
    hide StreamTypes.Utf8, BlockTokens, BlockText;
    if blocks == [] {
      NoBytes();
    } else {
      BlockBounds(blocks[0]);
      BlocksBounds(blocks[1..]);
      StreamTypes.Utf8Concat(BlockText(blocks[0]), AllText(blocks[1..]));
    }
  }

  lemma NoBytes()
    ensures StreamTypes.Utf8("") == []
  {
  }

  lemma {:induction false} BytesConcat(a: seq<Block>, b: seq<Block>)
    ensures Bytes(a + b) == Bytes(a) + Bytes(b)
  {
    hide StreamTypes.Utf8, BlockText;
    if a == [] {
      NoBytes();
      assert a + b == b;
    } else {
      BytesConcat(a[1..], b);
      assert (a + b)[1..] == a[1..] + b;
      StreamTypes.Utf8Concat(BlockText(a[0]), AllText(a[1..]));
      StreamTypes.Utf8Concat(BlockText(a[0]), AllText(a[1..] + b));
    }
  }

  lemma {:induction false} TokensBounds(messages: seq<Message>)
    ensures var blocks := AllBlocks(messages);
            && 4 * Tokens(messages) <= Bytes(blocks) + 4 * |blocks|
            && Bytes(blocks) <= 4 * Tokens(messages) + 3 * |blocks|
  {
    hide Bytes, BlocksTokens;
    if messages == [] {
      NothingSaid();
    } else {
      BlocksBounds(messages[0].blocks);
      TokensBounds(messages[1..]);
      BytesConcat(messages[0].blocks, AllBlocks(messages[1..]));
    }
  }

  lemma NothingSaid()
    ensures Bytes([]) == 0
  {
  }

  /** The messages behind the old summary, if there is one. */
  function Behind(session: Session): seq<Message> {
    session.messages[PrefixLength(session.messages)..]
  }

  /**
   * Short conversations are left alone, and long ones are compacted: with `bytes` of text in `n` blocks
   * behind the old summary, the first below a quarter of `bytes + 4n`, the second from a quarter of
   * `bytes - 4n` on.
   */
  lemma TriggeredByBytes(summarize: Summarizer, session: Session, config: Config)
    ensures var blocks := AllBlocks(Behind(session));
            var bytes, n, r := Bytes(blocks), |blocks|, Compacted(summarize, session, config);
            && (|Behind(session)| <= config.preserveRecentMessages || bytes + 4 * n < 4 * config.maxEstimatedTokens ==>
                  r == CompactionResult("", "", session, 0))
            && (|Behind(session)| > config.preserveRecentMessages && bytes >= 4 * (config.maxEstimatedTokens + n) ==>
                  && r.session.messages != [] && r.session.compaction.Some?
                  && r.session.messages[0] == SummaryMessage(r.summary, |r.session.messages| > 1))
  {
    hide Bytes, AllBlocks, Tokens, PrefixLength, NewSummary, SummaryMessage, Format, Removed, Preserved;
    TokensBounds(Behind(session));
  }

  /** Of a single block the exact bytes decide: a text, a call or a result counts one more than a thought. */
  lemma OneBlockTriggersIff(summarize: Summarizer, b: Block, max: nat)
    ensures var messages := [Message(User, [b])];
            var r := Compacted(summarize, Session(messages, None), Config(0, max));
            var bytes := |StreamTypes.Utf8(BlockText(b))|;
            && (!b.ThinkingBlock? ==> (r.removedMessageCount == 1 <==> 4 * max <= bytes + 4))
            && (b.ThinkingBlock? && b.signature.None? ==> (r.removedMessageCount == 1 <==> 4 * max <= bytes))
            && r.removedMessageCount <= 1
  {
    hide BlockTokens, BlockText, StreamTypes.Utf8, NewSummary, SummaryMessage, Format;
    var messages, config := [Message(User, [b])], Config(0, max);
    BlockBounds(b);
    assert HeadSummary(messages).None?;
    assert messages[0..] == messages && messages[1..] == [] && [b][1..] == [];
    assert Tokens(messages) == BlockTokens(b) by {
      assert BlocksTokens([b]) == BlockTokens(b) + BlocksTokens([]);
      assert Tokens(messages) == BlocksTokens([b]) + Tokens([]);
    }
    CompactionSafety.WholeIsKept(messages, 0);
  }
}
