/** Earlier context survives in the head of a session through every later compaction. */
module ContextSurvival {
  import opened Text
  import opened SummaryText
  import opened SummaryReading
  import opened SummaryRoundTrip
  import opened SummarySurvival
  import opened Compaction
  import opened CompactionSafety

  /** The lines a summarizer puts between its tags. */
  type Told = seq<Message> -> seq<string>

  /** About the messages this compaction removes, the summarizer tells clean lines. */
  ghost predicate TellsCleanLines(summarize: Summarizer, told: Told, messages: seq<Message>, config: Config)
    requires ShouldCompact(messages, config)
  {
    var removed := Removed(messages, config);
    summarize(removed) == Wrap(told(removed)) && AllClean(told(removed))
  }

  /** So it does at every triggered compaction of the run. */
  ghost predicate TellsCleanLinesAlong(summarize: Summarizer, told: Told, session: Session, ops: seq<Op>)
    decreases |ops|
  {
    ops != [] ==>
      && (ops[0].Compact? && ShouldCompact(session.messages, ops[0].config) ==>
            TellsCleanLines(summarize, told, session.messages, ops[0].config))
      && TellsCleanLinesAlong(summarize, told, Apply(summarize, session, ops[0]), ops[1..])
  }

  ghost predicate HeadHolds(messages: seq<Message>, lines: seq<string>) {
    messages != [] && exists recent :: messages[0] == SummaryMessage(Wrap(lines), recent)
  }

  /** The highlights a later compaction finds in the head of a session. */
  function HeadHighlights(messages: seq<Message>): seq<string> {
    match HeadSummary(messages)
    case Some(summary) => Highlights(summary)
    case None => []
  }

  lemma HeadRecovered(messages: seq<Message>, lines: seq<string>)
    requires HeadHolds(messages, lines) && AllClean(lines)
    ensures HeadSummary(messages) == Some(Format(Wrap(lines)))
    ensures HeadHighlights(messages) == HighlightLines(lines)
  {
    hide AllClean, Wrap, Format, ContinuationMessage, RecoverSummary, HighlightLines, Highlights, TimelineLines, Timeline,
         ExistingSummary;
    var recent :| messages[0] == SummaryMessage(Wrap(lines), recent);
    SummaryRecognised(Wrap(lines), recent);
    CleanSummaryRecovered(lines, true, recent);
    WrappedReading(lines);
  }

  /** The first compaction of a session without a summary puts the told lines in the head. */
  lemma FirstCompaction(summarize: Summarizer, told: Told, session: Session, config: Config)
    requires ShouldCompact(session.messages, config) && HeadSummary(session.messages).None?
    requires TellsCleanLines(summarize, told, session.messages, config)
    ensures HeadHolds(Compacted(summarize, session, config).session.messages, told(Removed(session.messages, config)))
  {
    hide ShouldCompact, HeadSummary, Wrap, Format, ContinuationMessage, Removed, Preserved, AllClean, SummaryMessage, Highlights, Timeline;
    var messages := session.messages;
    var lines := told(Removed(messages, config));
    var after := Compacted(summarize, session, config).session.messages;
    assert summarize(Removed(messages, config)) == Wrap(lines);
    assert NewSummary(summarize, messages, config) == Wrap(lines);
    assert after[0] == SummaryMessage(Wrap(lines), Preserved(messages, config) != []);
  }

  /** A later compaction merges the told lines into the lines of the head. */
  lemma LaterCompaction(summarize: Summarizer, told: Told, session: Session, config: Config, lines: seq<string>)
    requires ShouldCompact(session.messages, config) && HeadHolds(session.messages, lines) && AllClean(lines)
    requires TellsCleanLines(summarize, told, session.messages, config)
    ensures var next := NextLines(lines, told(Removed(session.messages, config)));
            && AllClean(next) && AllClean(told(Removed(session.messages, config)))
            && HeadHolds(Compacted(summarize, session, config).session.messages, next)
            && Compacted(summarize, session, config).summary == Wrap(next)
  {
    hide ShouldCompact, HeadSummary, Wrap, Format, ContinuationMessage, Removed, Preserved, AllClean, SummaryMessage, NextLines, Merge;
    var messages := session.messages;
    var added := told(Removed(messages, config));
    HeadRecovered(messages, lines);
    assert summarize(Removed(messages, config)) == Wrap(added) && AllClean(added);
    MergeIsNextLines(lines, added);
    var after := Compacted(summarize, session, config).session.messages;
    assert after[0] == SummaryMessage(Wrap(NextLines(lines, added)), Preserved(messages, config) != []);
  }

  /** How many compactions of a run find something to compact. */
  function Triggered(summarize: Summarizer, session: Session, ops: seq<Op>): nat
    decreases |ops|
  {
    if ops == [] then 0
    else
      (if ops[0].Compact? && ShouldCompact(session.messages, ops[0].config) then 1 else 0)
      + Triggered(summarize, Apply(summarize, session, ops[0]), ops[1..])
  }

  lemma PushKeepsHead(session: Session, m: Message, lines: seq<string>)
    requires HeadHolds(session.messages, lines)
    ensures HeadHolds(session.messages + [m], lines)
  {
    hide SummaryMessage;
    assert (session.messages + [m])[0] == session.messages[0];
  }

  /** A whole run merges one list of told lines into the head per triggered compaction. */
  lemma {:induction false} RunCarriesHead(summarize: Summarizer, told: Told, session: Session, ops: seq<Op>, lines: seq<string>)
    returns (later: seq<seq<string>>)
    requires AllClean(lines) && HeadHolds(session.messages, lines)
    requires TellsCleanLinesAlong(summarize, told, session, ops)
    ensures |later| == Triggered(summarize, session, ops) && forall f :: f in later ==> AllClean(f)
    ensures HeadHolds(Run(summarize, session, ops).messages, AfterMerges(lines, later))
    decreases |ops|
  {
    hide AllClean, HeadHolds, Compacted, ShouldCompact, NextLines, Removed, TellsCleanLines;
    if ops == [] {
      later := [];
    } else {
      var next := Apply(summarize, session, ops[0]);
      if ops[0].Push? {
        PushKeepsHead(session, ops[0].message, lines);
        later := RunCarriesHead(summarize, told, next, ops[1..], lines);
      } else if ShouldCompact(session.messages, ops[0].config) {
        var added := told(Removed(session.messages, ops[0].config));
        LaterCompaction(summarize, told, session, ops[0].config, lines);
        var rest := RunCarriesHead(summarize, told, next, ops[1..], NextLines(lines, added));
        later := [added] + rest;
        assert later[1..] == rest;
      } else {
        Untriggered(summarize, session, ops[0].config);
        later := RunCarriesHead(summarize, told, next, ops[1..], lines);
      }
    }
  }

  /**
   * Through every run of pushes and compactions, the highlights of a session's head stay the
   * first highlights of its head, with one dash per triggered compaction.
   */
  lemma ContextSurvivesRun(summarize: Summarizer, told: Told, session: Session, ops: seq<Op>, lines: seq<string>)
    requires AllClean(lines) && HeadHolds(session.messages, lines)
    requires TellsCleanLinesAlong(summarize, told, session, ops)
    requires BARE_HEADER !in HighlightLines(lines)
    ensures HeadHighlights(session.messages) == HighlightLines(lines)
    ensures Prefixed(Dashes(Triggered(summarize, session, ops)), HeadHighlights(session.messages))
            <= HeadHighlights(Run(summarize, session, ops).messages)
  {
    hide AllClean, HeadHolds, HighlightLines, HeadHighlights, TellsCleanLinesAlong, Run, Triggered, AfterMerges, Prefixed, Dashes;
    HeadRecovered(session.messages, lines);
    var later := RunCarriesHead(summarize, told, session, ops, lines);
    HighlightsSurvive(lines, later);
    HeadRecovered(Run(summarize, session, ops).messages, AfterMerges(lines, later));
  }

  /** How often a session says it was compacted. */
  function CountOf(session: Session): nat {
    match session.compaction
    case Some(record) => record.count
    case None => 0
  }

  /** The count grows by exactly one with every compaction that finds something to compact. */
  lemma {:induction false} CompactionsCounted(summarize: Summarizer, session: Session, ops: seq<Op>)
    ensures CountOf(Run(summarize, session, ops)) == CountOf(session) + Triggered(summarize, session, ops)
    decreases |ops|
  {
    hide ShouldCompact, SummaryMessage;
    if ops != [] {
      CompactionsCounted(summarize, Apply(summarize, session, ops[0]), ops[1..]);
    }
  }
}
