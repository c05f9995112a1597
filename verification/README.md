# Verified model of the agent runtime's hard parts

The project models six parts of the repository and proves what they promise, over all inputs and
over whole runs. Each Dafny module stands for one source component; loops and objects of the source
are methods and classes here, specified by functions whose properties are the lemmas.

- **Session compaction** (`SummaryText`, `SummaryReading`, `SummaryRoundTrip`, `SummarySurvival`,
  `SummaryParts`, `Compaction`, `CompactionTrigger`, `CompactionSafety`, `ContextSurvival`). Old
  messages become one system summary. Tool results keep their calls, compaction is a fixpoint, and
  earlier context survives every later one.
- **Streaming** (`StreamTypes`, `SseFraming`, `SseParser`, `MessageStream`, `BlockAssembler`,
  `Delivery`, `MockService`, `StreamPipeline`, `FrameReading`). An encoder, any network chunking, the
  event-stream parser (the format of section 9.2 of the WHATWG HTML Standard, by the code's own
  separator rule) and the block assembler, composed end to end.
- **Commands and skills** (`EditDistance`, `CommandSuggestions`, `SkillLookup`, `SkillEntries`). Edit
  distance as a minimum over edit scripts; two walks over skill roots that agree on the winner, read
  off the entries on disk.
- **Retrieval index** (`Windows`, `RagIndex`, `RagStore`, `IngestAgreement`, `VectorSearch`,
  `CosineGeometry`). Incremental ingestion against a rebuild, overlapping windows, top-k search over
  exact reals with the score as the cosine of an angle.
- **Browser bridge** (`BrowserBridge`). Clients, reader, writer and timeouts as interleaved steps.
- **Ledgers and conflicts** (`PromptCaching`, `CacheRuns`, `ApprovalTokens`, `BranchLock`). A cache
  that is a map with expiry and survives restarts, tokens over whole runs, collision detection.

`Text` and `Sorting` hold the standard library's string and sorting operations the code calls.

## What the foreign code is taken to do

- JSON is a pair of functions with `parse(print(v)) = v` that prints an event as one object without
  control characters; lossy UTF-8 decoding is exact on valid UTF-8 (section 3 of RFC 3629).
- The content hash is injective, embeddings are a function of the text, and a budget says how many
  embedding calls succeed before one fails. The request hash is a field of the request.
- Clocks are parameters. File reads and writes of the prompt cache succeed; a directory is read in
  the same order by both skill walks, and a skill document is known by what its front matter says.
- Square root is any function that returns the non-negative root.
- The text a compaction adds about the removed messages is an arbitrary function of them; for the
  survival results it must be made of clean lines (without tags, line breaks, closing notes), but only
  about the messages a compaction of the run really removes.

## Where the code falls short, and exactly when

- Framing depends on the chunking exactly when an LF LF begins behind a CR LF CR LF
  (`SseFraming.ChunkingIndependentIff`).
- What an ordered stream delivers depends on the chunking exactly when an event comes before the first
  malformed frame that is followed by a separator (`Delivery.DeliveryIndependentIff`).
- Split JSON streams back to the direct response exactly when each split decodes to its input
  (`StreamPipeline.StreamedTurn`); a call with no JSON pieces becomes `{"raw": ""}` when the empty text
  is no JSON (`StreamPipeline.NoPiecesBecomeRaw`). An empty text turn leaves no block
  (`StreamPipeline.StreamedText`).
- A continuation message loses text exactly when the summary contains one of its own closing notes
  (`SummarySurvival.RecoveredIff`, with a summary in `SummarySurvival.QuotedNoteIsLost`), and a highlight
  that is a bare `Key timeline:` hides the highlights after it once merged
  (`SummarySurvival.MergeKeepsHighlights`).
- Compaction separates a result from its call exactly when the configured tail begins with a result and
  the last call in front of it is made by the old summary or by a message that opens with a result
  (`CompactionSafety.AnchorsKeptIff`, with a session in `CompactionSafety.CallAmongResultsSplits`).
  Preserving no message drops the calls that still wait (`CompactionSafety.WaitingCallsKeptIff`); both
  together decide whole runs (`CompactionSafety.RunKeepsAnchorsIff`).
  The comment at crates/runtime/src/compact.rs:135-137 says the walk moves only past messages without
  a call; the code also moves onto the message with the call, and the model follows the code.
- Ingestion stopped by an embedding error leaves rows of a file that has no record; if the file then
  disappears they stay until it is listed again (`IngestAgreement.StraysStayForGood`), and exactly such
  rows keep the index from equalling a rebuild (`IngestAgreement.AgreesWithRebuildIff`).
- A repeated run embeds again exactly when two listed files share a key, differ, and one of them has
  something to store (`IngestAgreement.SecondRunDoesNothingIff`, with a listing in
  `IngestAgreement.ClashWitness`). Keys are a name and eight digits of a hash of the workspace's path,
  then the relative path with backslashes replaced, so they clash for names that differ in a backslash or
  in bytes that are no UTF-8, or when the eight digits agree (and, harmlessly, for a workspace given twice).
- A client whose send fails leaves its pending entry behind, until Chrome names its id; no other
  finished client does (`BrowserBridge.LeftoverEntriesIff`).

## Model

| member | source | states |
|---|---|---|
| EditDistance.DistanceIsMinimal | crates/commands/src/lib.rs:1959-1986 | the recursive distance is the length of a shortest script of insertions, deletions and substitutions: one script reaches it and none is shorter |
| EditDistance.EveryScriptCostsDistance | crates/commands/src/lib.rs:1959-1986 | every script that turns one string into another has at least as many edits as the distance |
| EditDistance.Symmetric | crates/commands/src/lib.rs:1959-1986 | the distance is the same both ways |
| EditDistance.ZeroIffEqual | crates/commands/src/lib.rs:1959-1986 | the distance is zero exactly for equal strings |
| EditDistance.Triangle | crates/commands/src/lib.rs:1959-1986 | the triangle inequality, for all three strings |
| EditDistance.LengthBounds | crates/commands/src/lib.rs:1959-1986 | the distance is at least the difference of the lengths and at most their sum |
| EditDistance.FillRow | crates/commands/src/lib.rs:1974-1981 | the inner loop computes one row of distances between prefixes from the row above, in place |
| EditDistance.Levenshtein | crates/commands/src/lib.rs:1959-1986 | the two-row computation with its three early returns gives the distance, for all strings |
| CommandSuggestions.QualifiesIff | crates/commands/src/lib.rs:1995-2022 | a command qualifies exactly when its name or an alias contains the query, is contained in it, or is two edits away from it; a better rank of one name never hides a near alias |
| CommandSuggestions.RankMeans | crates/commands/src/lib.rs:2003-2010 | rank 0 is one text beginning the other, rank 1 one inside the other, rank 2 all else |
| CommandSuggestions.KeyMeans | crates/commands/src/lib.rs:1995-2022 | a command is sorted by the best fit among its names: its rank, the length of a shortest edit script, then its own length and name |
| CommandSuggestions.KeyLeDecided | crates/commands/src/lib.rs:2026 | a lower rank comes first, then fewer edits, then the shorter name, then the name in string order |
| CommandSuggestions.QueryIs | crates/commands/src/lib.rs:1990 | the query is the name in lower case, without the space around it and the slashes in front |
| CommandSuggestions.SuggestionsAreBest | crates/commands/src/lib.rs:1989-2031 | the suggestions are the first of all qualified commands in ascending order of rank, distance, length and name; none is dropped or doubled, and one is left out only when the limit is filled with commands that sort no later |
| SseFraming.DrainConserves | crates/api/src/sse.rs:28-80 | drained frames, their separators and the remaining buffer are the pushed bytes, in order |
| SseFraming.ChunksDrainLikeTheWhole | crates/api/src/sse.rs:28-80 | a stream with no LF LF behind a CR LF CR LF drains the same in any pushes as in one |
| SseFraming.ChunkingIndependentIff | crates/api/src/sse.rs:59-80 | exactly for those streams is the framing independent of the chunking: for every other stream some chunking frames differently |
| SseFraming.RevealingChunks | crates/api/src/sse.rs:59-80 | gives, for every other stream, a chunking that frames differently from the single push |
| SseParser.ParseFrame | crates/api/src/sse.rs:86-128 | the line loop computes the meaning of a frame, whose content is `FrameReading.FrameReads` |
| FrameReading.FrameReads | crates/api/src/sse.rs:90-128 | any frame of comment, event and data lines, ended by LF or CR LF: nothing if its last name is `ping`, it has no payload or its payloads joined are `[DONE]`; else the event they spell together, or the error with that payload, provider and model |
| FrameReading.PingIsSkipped | crates/api/src/sse.rs:112-114 | a ping means nothing, whatever its one-line payload |
| FrameReading.SilentFrame | crates/api/src/sse.rs:99-118 | every frame whose lines all start with `:` or `event:` means nothing |
| FrameReading.DoneIsSkipped | crates/api/src/sse.rs:120-123 | `data: [DONE]` means nothing |
| FrameReading.PayloadsAreJoined | crates/api/src/sse.rs:106-127 | data lines alone mean the event that their payloads parse to, joined by line feeds |
| SseParser.Parser.NextFrame | crates/api/src/sse.rs:59-80 | takes the bytes before the separator out of the buffer, the first LF LF anywhere before any CR LF CR LF |
| SseParser.Parser.Push | crates/api/src/sse.rs:28-39 | the events, or the first error, of the frames the old buffer and the chunk complete, with the buffer left behind the last frame taken |
| SseParser.Parser.Finish | crates/api/src/sse.rs:41-51 | parses what is left as one frame and empties the buffer |
| SseParser.ConsumeIsDrain | crates/api/src/sse.rs:28-39 | a push whose frames all parse returns exactly their events |
| SseParser.ConsumeOkIff | crates/api/src/sse.rs:28-39 | a push succeeds exactly when every frame it completes parses |
| SseParser.ConsumeConserves | crates/api/src/sse.rs:28-80 | also a failing push loses no bytes: it stops right behind one of the frames |
| MessageStream.Stream.NextEvent | crates/api/src/providers/anthropic.rs:833-857 | delivers the first of the events still ahead, in order, then the end or the error |
| Delivery.PullDelivers | crates/api/src/providers/anthropic.rs:833-857 | under any chunking, with malformed frames or without: the error is that of the first malformed frame, no events but those before it are delivered, in order, and all of them unless a separated frame is malformed |
| Delivery.DeliveryIndependentIff | crates/api/src/sse.rs:28-51 | an ordered stream delivers the same events and error under every chunking exactly when no event comes before its first malformed separated frame |
| StreamPipeline.MalformedBehindEvent | crates/api/src/sse.rs:28-39 | a concrete ordered stream, an event followed by a data line that is no JSON, whose delivery depends on the chunking |
| MockService.AppendSse | crates/mock-anthropic-service/src/lib.rs:1043-1048 | appends exactly one encoded frame |
| MockService.ToolUsesSse | crates/mock-anthropic-service/src/lib.rs:845-914 | the nested loops write the encoding of the whole event sequence of a tool-use turn |
| MockService.FinalTextSse | crates/mock-anthropic-service/src/lib.rs:915-1041 | writes the encoding of the event sequence of a text turn |
| StreamPipeline.FrameRoundTrip | crates/mock-anthropic-service/src/lib.rs:1043-1048 | an encoded frame parses back to its event |
| StreamPipeline.BodyDrains | crates/api/src/sse.rs:59-80 | the bytes of an encoded body split into exactly its frames with nothing left |
| StreamPipeline.DeliveredEvents | crates/api/src/sse.rs:28-128 | encoding, any network chunking, framing and parsing deliver the encoded events, and no others |
| FrameReading.SilentFramesChangeNothing | crates/api/src/sse.rs:28-128 | pings, comments and `[DONE]` frames between the encoded events change nothing that is delivered, under any network chunking |
| BlockAssembler.StreamToMessageResponse | crates/claw-analog/src/lib.rs:1444-1571 | the event loop computes the fold of its events over the three maps, stopping at the first message stop, and ends in a response, the fallback or the stream error |
| BlockAssembler.Projection | crates/claw-analog/src/lib.rs:1469-1546 | for every event list, with a message stop or without: what is held at a block index depends on the events of that index before the stop alone |
| BlockAssembler.InterleavingInvisible | crates/claw-analog/src/lib.rs:1469-1546 | event lists with the same per-index events before the message stop finish the same blocks in the same order |
| BlockAssembler.TextBlock | crates/claw-analog/src/lib.rs:1469-1546 | a text block is its start text followed by its deltas; an empty one leaves no block |
| BlockAssembler.ToolBlock | crates/claw-analog/src/lib.rs:1469-1546 | a tool block is the decoding of its joined JSON deltas, or that text under `raw` |
| BlockAssembler.WholeToolBlock | crates/claw-analog/src/lib.rs:1469-1546 | a tool block that starts with its whole input is that input |
| BlockAssembler.ThinkingIsIgnored | crates/claw-analog/src/lib.rs:1469-1546 | thinking blocks, deltas and signatures change nothing |
| BlockAssembler.MessageFields | crates/claw-analog/src/lib.rs:1469-1546 | usage, stop reason, id and model are the last ones sent before the message stop |
| BlockAssembler.ConcludeMeans | crates/claw-analog/src/lib.rs:1542-1571 | for every event list: the stream error without a stop, the fallback without a stop or without blocks, else the response with these blocks, the last usage and reason, and by default that of a tool call if there is one |
| StreamPipeline.AssembledBlocks | crates/claw-analog/src/lib.rs:1444-1571 | the events of a tool-use turn assemble to one block per call, in order |
| StreamPipeline.StreamedTurn | crates/mock-anthropic-service/src/lib.rs:738-762 | end to end: for all tool uses, all splits of their JSON and all network chunkings, the whole response is determined, and its content is the direct response exactly when each split decodes to its input |
| StreamPipeline.NoPiecesBecomeRaw | crates/claw-analog/src/lib.rs:1469-1546 | a call whose JSON pieces are empty gets the input `{"raw": ""}`, so an empty object does not stream back |
| StreamPipeline.StreamedText | crates/mock-anthropic-service/src/lib.rs:669-714 | end to end for a text turn: the whole direct response but for the request id, unless the text is empty, which leads to the non-streaming fallback |
| SummaryText.CollapseBlankLines | crates/runtime/src/compact.rs:498-511 | keeps of each run of blank lines the first |
| SummaryParts.CollapsesBlanks | crates/runtime/src/compact.rs:498-511 | what is kept has no two blank lines in a row and all other lines in order |
| SummaryParts.AnalysisIsStripped | crates/runtime/src/compact.rs:484-496 | an analysis block goes with its tags, and the text before and behind it stays |
| SummaryText.ExtractSummaryHighlights | crates/runtime/src/compact.rs:529-549 | the visible lines of the formatted summary, without headings, above and outside the timeline |
| SummaryText.ExtractSummaryTimeline | crates/runtime/src/compact.rs:551-571 | the visible lines below the timeline header up to the first blank line |
| SummaryParts.SectionsAreRead | crates/runtime/src/compact.rs:529-571 | titles are left out, the items above `- Key timeline:` are the highlights, and the items below it up to a blank line the timeline |
| SummaryText.MergeCompactSummaries | crates/runtime/src/compact.rs:290-325 | the merged text: old highlights, new highlights and new timeline under their headers |
| SummaryRoundTrip.FormattedReading | crates/runtime/src/compact.rs:55-69 | formatting wrapped lines keeps what is read from them, leaves no tags, and trims |
| SummaryRoundTrip.WrappedReading | crates/runtime/src/compact.rs:529-571 | the highlights and timeline parsed out of a printed summary, or out of its formatted text, are those of its lines |
| SummarySurvival.RecoveredIff | crates/runtime/src/compact.rs:513-527 | the parser gets the formatted summary back out of the continuation message exactly when that summary contains neither of the two closing notes |
| SummarySurvival.QuotedNoteIsLost | crates/runtime/src/compact.rs:513-527 | a concrete summary, quoting a closing note behind a blank line, that is never recovered |
| SummarySurvival.CleanSummaryRecovered | crates/runtime/src/compact.rs:71-92 | every clean summary is recovered, whatever notes the message carries |
| SummaryParts.MessageSays | crates/runtime/src/compact.rs:71-92 | a continuation message is the preamble and the formatted summary, followed by exactly the notes it is asked for |
| SummarySurvival.MergeKeepsHighlights | crates/runtime/src/compact.rs:290-325 | a merged summary reads as the old highlights behind a dash, then the new section, with exactly the new timeline; precisely when no old highlight is a bare `Key timeline:` |
| SummarySurvival.HighlightsSurvive | crates/runtime/src/compact.rs:290-325 | after any number of merges the first highlights are still the first, with one dash per merge |
| Compaction.WalkBack | crates/runtime/src/compact.rs:129-166 | the loop ends at the boundary: in front of the block of tool results, at the call they answer |
| Compaction.CompactSession | crates/runtime/src/compact.rs:96-190 | the whole result: old summary merged, head replaced, tail kept, count recorded; for every preserve count, 0 included (when it compacts at all is `CompactionTrigger.TriggeredByBytes`) |
| CompactionTrigger.TriggeredByBytes | crates/runtime/src/compact.rs:41-51 | in bytes and blocks behind the old summary: a session that is small or has at most the preserved messages there is left as it is; one with enough bytes and more messages is compacted and headed by a summary |
| CompactionTrigger.BlockBounds | crates/runtime/src/compact.rs:458-474 | the estimate of each kind of block is within one of a quarter of its bytes |
| CompactionTrigger.OneBlockTriggersIff | crates/runtime/src/compact.rs:41-51 | a session of a single block, with nothing to preserve, is compacted exactly when a quarter of its bytes, plus one unless it is a thought, reaches the maximum |
| CompactionSafety.ReportFits | crates/runtime/src/compact.rs:167-189 | the figures, the two summaries, the record and the head that a compaction reports fit the session it leaves |
| CompactionSafety.TailAsConfigured | crates/runtime/src/compact.rs:111-166 | a tail that does not begin with a tool result is preserved as configured, to the message |
| Compaction.CutInRange | crates/runtime/src/compact.rs:111-168 | the cut lies between the old summary and the end, so every slice is in bounds |
| CompactionSafety.MessagesConserved | crates/runtime/src/compact.rs:167-189 | old summary, removed and preserved messages are the session in order, and at least the configured number is preserved |
| CompactionSafety.SummaryRecognised | crates/runtime/src/compact.rs:513-527 | a head written by compaction is always recognised as an earlier summary |
| CompactionSafety.SummaryIsFirstText | crates/runtime/src/compact.rs:412-527 | the summary of a system message is recovered from its first visible text; other roles carry none |
| CompactionSafety.CompactionIsFixpoint | crates/runtime/src/compact.rs:96-190 | compacting again with the same settings removes nothing and keeps every message behind the head |
| CompactionSafety.AnchorsKeptIff | crates/runtime/src/compact.rs:111-168 | for every session whose results stand behind their calls and every configuration: compaction keeps them so exactly when the configured tail does not begin with a result, or the last call between the old summary and it is made by a message that does not open with a result |
| CompactionSafety.TailStartsSafelyIff | crates/runtime/src/compact.rs:111-166 | under the same condition, and only then, the preserved tail does not start with a tool result |
| CompactionSafety.WellPlacedCallsCutSafely | crates/runtime/src/compact.rs:111-166 | the condition holds for every configuration when no system message and no message that opens with a result makes calls |
| CompactionSafety.WaitingCallsKeptIff | crates/runtime/src/compact.rs:111-168 | after such a cut the calls still waiting for results are kept exactly when some message is preserved or no call waits |
| CompactionSafety.RunKeepsAnchorsIff | crates/runtime/src/compact.rs:111-168 | for every run of pushes and compactions of a well-formed transcript: results stand behind their calls at every moment exactly when every triggered compaction meets that condition and, if it preserves nothing, is not followed by a result |
| CompactionSafety.WaitingResultStillFitsIff | crates/runtime/src/compact.rs:111-128 | a result still waited for fits behind a compaction exactly when the compaction preserves some message |
| CompactionSafety.CallAmongResultsSplits | crates/runtime/src/compact.rs:129-166 | a concrete session with a call inside a result message, whose compaction separates a result from its call |
| ContextSurvival.HeadRecovered | crates/runtime/src/compact.rs:193-201 | the head of a compacted session gives its formatted summary and highlights back |
| ContextSurvival.FirstCompaction | crates/runtime/src/compact.rs:96-190 | the first compaction of a session without a summary puts the lines told about what it removes into the head |
| ContextSurvival.LaterCompaction | crates/runtime/src/compact.rs:96-190 | a compaction whose summarizer tells clean lines about what it removes merges them into the lines of the head |
| ContextSurvival.RunCarriesHead | crates/runtime/src/compact.rs:96-190 | a run merges into the head, per triggered compaction, the lines told about what that compaction removes |
| ContextSurvival.ContextSurvivesRun | crates/runtime/src/compact.rs:290-325 | the highlights of the head stay the first highlights of the head through every run, one dash per triggered compaction |
| ContextSurvival.CompactionsCounted | crates/runtime/src/compact.rs:96-190 | over every run, the recorded count grows by exactly the compactions that found something to compact |
| Windows.ChunkText | crates/claw-rag-service/src/chunk.rs:4-28 | the loop terminates and stores exactly the windows that are not blank, for all sizes and overlaps |
| Windows.WindowsRebuildText | crates/claw-rag-service/src/chunk.rs:4-28 | the first window and each next one without its overlap are the text |
| Windows.StretchInOneWindow | crates/claw-rag-service/src/chunk.rs:15-26 | every stretch of at most overlap + 1 characters lies whole in one window |
| Windows.VisibleTextIsStored | crates/claw-rag-service/src/chunk.rs:17-20 | dropping blank windows loses no visible character: each is stored together with its surroundings |
| Windows.StoredIsStretch | crates/claw-rag-service/src/chunk.rs:15-20 | a stored chunk is a visible stretch of the text, no longer than a window |
| RagIndex.VisibleTextInPiece | crates/claw-rag-service/src/ingest.rs:19-20 | with the sizes of ingestion: any 121 characters with a visible one among them stand together in one piece |
| RagStore.Store.DeleteFileAndChunks | crates/claw-rag-service/src/db.rs:102-109 | removes the chunks of the path, their embeddings and the record, and nothing else |
| RagStore.Store.InsertChunk | crates/claw-rag-service/src/db.rs:125-137 | fails exactly on a path and ordinal already present, else adds the row under a new id |
| RagStore.Store.FlushPathBatch | crates/claw-rag-service/src/ingest.rs:49-90 | one embedding call adds the rows of the whole batch or, when it fails, none: the pieces under the path are then exactly those taken, each text with its own embedding; no uniqueness violation can occur |
| RagStore.Store.WritePieces | crates/claw-rag-service/src/ingest.rs:175-185 | a file in batches of 16: the rows are those of all pieces, or of as many whole batches as were embedded |
| RagStore.Store.IndexOneFile | crates/claw-rag-service/src/ingest.rs:143-191 | what it writes are the first pieces of the content, all of them or whole batches, each with its own embedding; only all of them get a record, with hash, sizes and times |
| RagStore.Store.RunIngest | crates/claw-rag-service/src/ingest.rs:138-206 | the run in place is the run by values, with its counts; committed rows stay committed, and a run that completes over readable files leaves under every listed key exactly the pieces of its last content, each with its own embedding |
| RagStore.Store.PruneFiles | crates/claw-rag-service/src/ingest.rs:194-204 | removes exactly the recorded files that were not seen |
| RagIndex.BlobRoundTrip | crates/claw-rag-service/src/db.rs:156-180 | a stored vector reads back exactly with its own dimension, and with no other |
| RagIndex.BlobIsLittleEndian | crates/claw-rag-service/src/db.rs:156-162 | a blob is its words in order, each with its least significant byte first |
| IngestAgreement.EveryHistoryCommitted | crates/claw-rag-service/src/ingest.rs:145-204 | after every history, stopped runs included, a record implies that the rows of its path are exactly the chunks of the recorded content, ordinals from 0, each with its embedding |
| IngestAgreement.AgreesWithRebuildIff | crates/claw-rag-service/src/ingest.rs:145-204 | a completed run equals a rebuild from nothing exactly when no stopped run left rows under a path that is neither recorded nor listed |
| IngestAgreement.IncrementalEqualsRebuild | crates/claw-rag-service/src/ingest.rs:145-204 | after any completed runs, one more over readable files leaves the rows of a rebuild |
| IngestAgreement.CompletedHistoryOrphanless | crates/claw-rag-service/src/ingest.rs:145-204 | completed runs never leave rows without a record |
| IngestAgreement.SecondRunDoesNothingIff | crates/claw-rag-service/src/ingest.rs:145-204 | an immediate second run embeds nothing, and then changes nothing, exactly when readable entries with one key hold the same file or none of them has anything to store |
| IngestAgreement.ClashEmbedsEveryRun | crates/claw-rag-service/src/ingest.rs:126-171 | two different files stored under one key make every run on every index embed again |
| IngestAgreement.ClashWitness | crates/claw-rag-service/src/ingest.rs:126-171 | a concrete such listing, and its second run |
| IngestAgreement.StoppedFile | crates/claw-rag-service/src/ingest.rs:175-185 | batching shows only in a stopped run: exactly the rows of the embedded batches of one file, and no record of it |
| IngestAgreement.StraysStayForGood | crates/claw-rag-service/src/ingest.rs:194-204 | a row without a record stays as it is through any later runs that list no readable file for its path |
| IngestAgreement.StoppedRunLeavesStray | crates/claw-rag-service/src/ingest.rs:194-204 | a stopped run whose file then disappears leaves rows no later run removes |
| VectorSearch.CauchySchwarz | crates/claw-rag-service/src/embed.rs:118-129 | the square of a dot product is at most the product of the two self products |
| VectorSearch.ScoreBounded | crates/claw-rag-service/src/embed.rs:118-129 | every score lies between -1 and 1, the guarded cases included |
| CosineGeometry.ScoreTimesNorms | crates/claw-rag-service/src/embed.rs:118-129 | the score times both norms is the inner product |
| CosineGeometry.DotSymmetric | crates/claw-rag-service/src/embed.rs:122 | the inner product is symmetric |
| CosineGeometry.DotAdditive | crates/claw-rag-service/src/embed.rs:122 | it is additive |
| CosineGeometry.DotHomogeneous | crates/claw-rag-service/src/embed.rs:122 | it is homogeneous |
| CosineGeometry.DotUnit | crates/claw-rag-service/src/embed.rs:122 | with a unit vector it gives the coordinate, which with the other laws determines it |
| CosineGeometry.EqualityCase | crates/claw-rag-service/src/embed.rs:118-129 | equality in the inequality of Cauchy and Schwarz means that one vector is a multiple of the other |
| CosineGeometry.ScoreOneIff | crates/claw-rag-service/src/embed.rs:118-129 | the score is 1 exactly when one vector is a positive multiple of the other |
| CosineGeometry.ScoreMinusOneIff | crates/claw-rag-service/src/embed.rs:118-129 | the score is -1 exactly when one vector is a negative multiple of the other |
| CosineGeometry.OppositeScore | crates/claw-rag-service/src/embed.rs:118-129 | the opposite vector has the opposite score |
| CosineGeometry.NoDirection | crates/claw-rag-service/src/embed.rs:118-127 | vectors of different lengths, empty vectors and zero vectors score 0 |
| VectorSearch.RankRows | crates/claw-rag-service/src/search.rs:36-78 | errors exactly on a dimension mismatch with the first row; else the hits are the min(top_k, 64, rows) best rows in descending score, ties in row order, and every row left out comes after all of them (what a score means: `CosineGeometry`) |
| VectorSearch.TopKUnique | crates/claw-rag-service/src/search.rs:54-73 | there is only one such selection |
| CosineGeometry.BestMatchFirst | crates/claw-rag-service/src/search.rs:54-73 | the first row that is a positive multiple of the query is the first hit |
| CosineGeometry.SnippetShows | crates/claw-rag-service/src/search.rs:81-87 | a snippet is the text up to 480 characters, else its first 480 and an ellipsis |
| BrowserBridge.StepKeepsInv | crates/browser-bridge/src/main.rs:50-113 | every step of a client, the reader, the writer or a timeout keeps the invariant |
| BrowserBridge.BridgeSafety | crates/browser-bridge/src/main.rs:50-113 | in every interleaving: ids unique, a served client wrote one answer under its own id and left no pending entry, no message reached two clients or a client with another id |
| BrowserBridge.WaitingClientIsReached | crates/browser-bridge/src/main.rs:51-63 | a message naming the id of a waiting client is handed to that client and can be received |
| BrowserBridge.ReceivedIsAnswered | crates/browser-bridge/src/main.rs:98-113 | a response that has reached a waiting client is its answer, whatever happens next |
| BrowserBridge.WrittenByHistory | crates/browser-bridge/src/main.rs:67-113 | in every interleaving: an invalid command is answered by just that error, a failed send by just that error, a served client by one reply or timeout, and any other client, such as one whose read failed, by nothing |
| BrowserBridge.StoppedWriterSendsNothing | crates/browser-bridge/src/main.rs:94-97 | once the writer has stopped, no further command is sent |
| BrowserBridge.FailedSendMeansStopped | crates/browser-bridge/src/main.rs:94-97 | a send fails only once the writer has stopped |
| BrowserBridge.IdSpelled | crates/browser-bridge/src/main.rs:81 | an id is `rt-` and the number in decimal, modulo 2^64 |
| BrowserBridge.LeftoverEntriesIff | crates/browser-bridge/src/main.rs:50-113 | in every interleaving, of the finished clients with an id exactly those whose send failed and whose id Chrome has not named since are still in the pending map |
| BrowserBridge.FailedSendLeavesEntry | crates/browser-bridge/src/main.rs:88-97 | a concrete run that ends with such an entry |
| PromptCaching.PromptCache.LookupCompletion | crates/api/src/prompt_cache.rs:145-193 | returns the live entry or nothing, removes a dead one, and leaves the stated totals and files |
| PromptCaching.PromptCache.RecordUsageInternal | crates/api/src/prompt_cache.rs:209-243 | records usage, break event, prompt and completion; the snapshot is the new totals |
| CacheRuns.KeptIff | crates/api/src/prompt_cache.rs:145-243 | what a lookup finds on disk after any run: the last written entry if every lookup since found it live, whatever the clock and the settings did |
| CacheRuns.LookupIsTtlMap | crates/api/src/prompt_cache.rs:145-193 | with a clock that never goes back, a lookup returns the last recorded response exactly while it is younger than the time to live |
| PromptCaching.LiveIff | crates/api/src/prompt_cache.rs:145-193 | an entry is alive exactly when its version is 1 and its age is below the time to live in whole seconds |
| CacheRuns.TotalsAreSums | crates/api/src/prompt_cache.rs:145-243 | over every run, restarts included: hits plus misses are the lookups, and every total is the sum over what was answered |
| CacheRuns.ReopenRestores | crates/api/src/prompt_cache.rs:120-132 | reopening after any run gives the same totals and prompt |
| CacheRuns.RestartsInvisible | crates/api/src/prompt_cache.rs:120-132 | a run with restarts anywhere gives the same answers and state as the run without them |
| CacheRuns.LastUseIsNamed | crates/api/src/prompt_cache.rs:384-396 | after any run the totals name the last charged use: its tokens, its request and where the answer came from |
| CacheRuns.LastLookupIsNamed | crates/api/src/prompt_cache.rs:145-193 | after any run the totals name the request that was looked up last, found or not |
| CacheRuns.LastBreakIsNamed | crates/api/src/prompt_cache.rs:209-243 | after any run the totals name the reason of the last break reported |
| CacheRuns.PreviousIsLastCharged | crates/api/src/prompt_cache.rs:145-243 | the tracked prompt is that of the last hit or record of the run |
| CacheRuns.BreakIff | crates/api/src/prompt_cache.rs:209-243 | a record, with its response or without, is a break exactly when the tokens read fell by the configured drop since the last charged prompt or that was tracked under another version; it is unexpected exactly when the prompt is the same and young enough |
| PromptCaching.BreakSays | crates/api/src/prompt_cache.rs:314-382 | the figures of a break add up, and its reason is the first that holds: version, the parts that differ, age in whole seconds, none |
| PromptCaching.PartsNamed | crates/api/src/prompt_cache.rs:341-353 | the parts named are exactly those that differ |
| BranchLock.OverlapIsAncestry | crates/runtime/src/branch_lock.rs:65-77 | modules overlap exactly when the components of one are a prefix of the other's; the shared scope is the ancestor, whichever way round |
| BranchLock.OverlappingModules | crates/runtime/src/branch_lock.rs:51-63 | exactly the shared scopes of two lists, strictly ascending |
| BranchLock.DetectBranchLockCollisions | crates/runtime/src/branch_lock.rs:23-49 | sound, complete and canonical: a collision is reported exactly when two intents collide, in strictly ascending order |
| BranchLock.CollisionLeDecided | crates/runtime/src/branch_lock.rs:41-46 | collisions are sorted by branch, then scope, then the earlier lane, then the later |
| Sorting.StringLeDecided | crates/runtime/src/branch_lock.rs:41-46 | strings are ordered by the first character in which they differ, and come behind their own prefixes |
| BranchLock.OrderOnlySwapsLanes | crates/runtime/src/branch_lock.rs:23-49 | reordering the intents changes a collision at most by swapping its lanes |
| BranchLock.ReportUnique | crates/runtime/src/branch_lock.rs:38-48 | the report is determined by which collisions there are |
| SkillLookup.LoadSkillsFromRoots | crates/commands/src/lib.rs:4111-4204 | fails exactly when some root cannot be read; else lists every definition in order, each active or shadowed by the first of its name (which entries these are: `SkillEntries.ListingIsEntries` and `SkillEntries.DriftIs`) |
| SkillLookup.ResolveSkillPath | crates/commands/src/lib.rs:3087-3157 | the document of the first definition of the name, or the error the roots before it lead to (which entry that is: `SkillEntries.LookupFindsFirst`) |
| SkillEntries.AllReadIff | crates/commands/src/lib.rs:4118-4185 | reading succeeds exactly when no root is missing and no entry is broken: one that cannot be listed, or whose document cannot be read |
| SkillEntries.ListingIsEntries | crates/commands/src/lib.rs:4117-4199 | for readable roots each listed skill comes from its own entry, none is left out, and the order is by root, name and entry; an entry is a skill with the name of its front matter, or else of its directory, file stem or `SKILL`, with the path, description and directory of the entry |
| SkillEntries.DriftIs | crates/commands/src/lib.rs:4131-4141 | the drift is, in order, exactly the skill directories whose front matter names them otherwise, with both names and the path |
| SkillEntries.LookupFindsFirst | crates/commands/src/lib.rs:3096-3149 | over readable roots the lookup gives the document of the first entry, by root, name and entry, whose name is the one asked for up to case |
| SkillEntries.LookupMissesIff | crates/commands/src/lib.rs:3150-3157 | and it finds nothing exactly when no entry has that name |
| SkillEntries.RequestedIs | crates/commands/src/lib.rs:3088 | the name asked for is the request without the space around it and the slashes and dollars in front |
| SkillLookup.OneActivePerName | crates/commands/src/lib.rs:4187-4197 | of the skills of one name, up to ASCII case, exactly one is active, and its source shadows all others |
| SkillLookup.LookupAgreesWithListing | crates/commands/src/lib.rs:3087-3157 | the lookup returns the document of the active skill of that name, and fails exactly when there is none |
| SkillLookup.UnreadableRoot | crates/commands/src/lib.rs:3097-3149 | an unreadable root hides the roots after it from the lookup, but not those before it |
| ApprovalTokens.BuiltIsFresh | crates/runtime/src/approval_tokens.rs:133-184 | however it is built, a grant is unused, allows at least one use, and is granted exactly when it was approved |
| ApprovalTokens.BuiltTerms | crates/runtime/src/approval_tokens.rs:133-184 | however it is built, a grant carries the last expiry and the last number of uses it was given, at least 1, and all its hops in order |
| ApprovalTokens.Ledger.Consume | crates/runtime/src/approval_tokens.rs:251-268 | the answer and the new ledger of one consumption |
| ApprovalTokens.Ledger.Revoke | crates/runtime/src/approval_tokens.rs:227-234 | the answer and the new ledger of one revocation |
| ApprovalTokens.Ledger.Verify | crates/runtime/src/approval_tokens.rs:236-249 | the answer of a verification, which changes nothing |
| ApprovalTokens.GrantIsItsHistory | crates/runtime/src/approval_tokens.rs:218-268 | over every run without reinsertion: uses equal the successful consumptions and never exceed the maximum, and the status is that of the history |
| ApprovalTokens.InsertionStartsAnew | crates/runtime/src/approval_tokens.rs:218-225 | an insertion starts the history of its token anew, whatever became of an earlier grant |
| ApprovalTokens.AnsweredByHistory | crates/runtime/src/approval_tokens.rs:270-312 | every consumption and verification is answered, error kinds included, by the history of the token and the terms of the grant alone |
| ApprovalTokens.SuccessMeansPermitted | crates/runtime/src/approval_tokens.rs:270-312 | a consumption succeeds exactly when the token was approved, never revoked, has uses left, and scope, executor and time fit |
| ApprovalTokens.SuccessIsAudited | crates/runtime/src/approval_tokens.rs:251-268 | the audit of a success names the grant, both actors and the number of the use, counted from the history |
| ApprovalTokens.RevocationIsAudited | crates/runtime/src/approval_tokens.rs:227-234 | after any run a revocation is audited as revoked, for the executor it was issued to, with the uses of its history |
| ApprovalTokens.VerifyForetellsConsume | crates/runtime/src/approval_tokens.rs:236-268 | verification succeeds exactly when consumption would, with the same audit but for the use |
| ApprovalTokens.AuditChainExtends | crates/runtime/src/approval_tokens.rs:314-343 | the audit chain continues the chain of the grant, is never empty, and accounts for a delegated executor |
| ApprovalTokens.AuditChainIs | crates/runtime/src/approval_tokens.rs:314-343 | the hops of an audit, exactly: those of the grant or its approval, and a delegated execution when no hop names the executor |
| ApprovalTokens.ServesUpToMaxUses | crates/runtime/src/approval_tokens.rs:251-268 | permitted requests succeed until the uses are gone, and not one more |

## Left out

- BrowserBridge.BridgeSafety: does not cover runs in which the 64-bit request counter has wrapped around, because ids then repeat.
- CacheRuns.TotalsAreSums: does not model the overflow of the 64-bit counters.
- VectorSearch.ScoreBounded: does not model the rounding of 32-bit floats, nor not-a-number scores.
- CompactionSafety.CompactionKeepsPairing: only the case of calls made by messages that are neither system messages nor open with a result; `CompactionSafety.AnchorsKeptIff` is the general statement.
- CompactionSafety.RunKeepsPairing: only that case, and compactions that preserve some message; `CompactionSafety.RunKeepsAnchorsIff` is the general statement.
- Delivery.DeliveryIndependentIff: only for streams without an LF LF behind a CR LF CR LF, because for the others the frames themselves depend on the chunking (`SseFraming.ChunkingIndependentIff`).
- StreamPipeline.StreamedTurn: only for at least one and at most 2^32 tool uses, because block indexes are 32-bit numbers and an empty turn has no content to assemble.
- ContextSurvival.ContextSurvivesRun: only when the told lines are clean and the head has no bare `Key timeline:`, because a tag, a closing note or that header in a line is read as structure (see above).
- BrowserBridge: clients, reader and timeouts are values in a state machine, not threads; aliasing of the shared map is not captured. Audit records, the socket and the stdin end of the reader are left out.
- Compaction.CompactSession: does not model the usage, prompt history, update time and other session fields it copies or stamps, nor the 32-bit width of its counter, because no branch reads them. The sentences `summarize_messages` writes are arbitrary lines here, so key files, pending work and truncation are not modelled.
- RagStore: SQL itself, transactions and errors of the database; the chunk ordinal's 32-bit range; the optional Qdrant copy; walking the workspaces and its file filters.
- MessageStream.Stream.NextEvent: does not model network errors while a chunk is read, usage observation and the prompt cache hook, because they do not touch the parser.
- BlockAssembler: writing text to the terminal and opening the stream.
- SseParser: the provider and model only label errors.
- SkillLookup: the parsing of front matter, the discovery of roots.
- CommandSuggestions: the table of commands is a parameter, and a name's length is counted in characters.
- PromptCaching: break reasons are values instead of sentences; paths, name sanitising, hashing, failed writes, and several processes on one session directory.
- ApprovalTokens: direct writes to a grant's public fields; a ledger only sees grants that are inserted.
- BranchLock: the worktree field, which the detection does not read.
- `bash_validation.rs`, command line parsing, help and report rendering, hooks, chat server, HTTP plumbing and the Chrome extension: each claim there is one branch or has no clean statement.
