/** The text of a compaction summary: printing, parsing back, and merging. */
module SummaryText {
  import opened Text

  const TIMELINE_HEADER := "- Key timeline:"
  const NEW_CONTEXT_HEADER := "- Newly compacted context:"
  const TITLE := "Conversation summary:"

  const PREAMBLE :=
    "This session is being continued " + "from a previous conversation that ran out of context. "
    + "The summary below covers the earlier portion of the conversation.\n\n"

  lemma PreambleInk()
    ensures PREAMBLE != "" && PREAMBLE[0] == 'T'
  {
    assert "This session is being continued "[0] == 'T';
  }

  const RECENT_NOTE := "Recent messages are preserved verbatim."

  /** The resume instruction, in pieces short enough to reason about. */
  function InstructionPart(i: nat): string {
    match i
    case 0 => "Continue the conversation "
    case 1 => "from where it left off "
    case 2 => "without asking the user "
    case 3 => "any further questions. "
    case 4 => "Resume directly \U{2014} do not "
    case 5 => "acknowledge the summary, "
    case 6 => "do not recap what "
    case 7 => "was happening, "
    case 8 => "and do not preface "
    case 9 => "with continuation text."
    case _ => ""
  }

  function InstructionParts(n: nat): seq<string> {
    seq(n, i requires 0 <= i < n => InstructionPart(i))
  }

  function Instruction(parts: seq<string>): string {
    if parts == [] then "" else Instruction(parts[..|parts| - 1]) + parts[|parts| - 1]
  }

  function ResumeInstruction(): string {
    Instruction(InstructionParts(10))
  }

  lemma FirstPartsOneLine(i: nat)
    requires i < 2
    ensures OneLine(InstructionPart(i))
  {
  }

  lemma NextPartsOneLine(i: nat)
    requires 2 <= i < 4
    ensures OneLine(InstructionPart(i))
  {
  }

  lemma MiddlePartsOneLine(i: nat)
    requires 4 <= i < 7
    ensures OneLine(InstructionPart(i))
  {
  }

  lemma LastPartsOneLine(i: nat)
    requires 7 <= i
    ensures OneLine(InstructionPart(i))
  {
  }

  lemma NoteOneLine()
    ensures OneLine(RECENT_NOTE)
  {
  }

  lemma PartOneLine(i: nat)
    ensures OneLine(InstructionPart(i))
  {
    hide InstructionPart;
    if i < 2 {
      FirstPartsOneLine(i);
    } else if i < 4 {
      NextPartsOneLine(i);
    } else if i < 7 {
      MiddlePartsOneLine(i);
    } else {
      LastPartsOneLine(i);
    }
  }

  lemma FirstPartStart()
    ensures var p := InstructionPart(0); |p| > 3 && p[0] == 'C' && p[3] == 't'
  {
  }

  lemma {:induction false} InstructionShape(n: nat)
    ensures var s := Instruction(InstructionParts(n));
            OneLine(s) && (n > 0 ==> |s| > 3 && s[0] == 'C' && s[3] == 't')
  {
    hide InstructionPart;
    FirstPartStart();
    if n > 0 {
      var parts := InstructionParts(n);
      InstructionShape(n - 1);
      PartOneLine(n - 1);
      assert parts[..|parts| - 1] == InstructionParts(n - 1) && parts[n - 1] == InstructionPart(n - 1);
      assert n == 1 ==> Instruction(parts) == InstructionPart(0);
    }
  }

  // --- The source's operations ---

  function OpenTag(tag: string): string {
    "<" + tag + ">"
  }

  function CloseTag(tag: string): string {
    "</" + tag + ">"
  }

  function StripTagBlock(content: string, tag: string): string {
    match (Find(content, OpenTag(tag)), Find(content, CloseTag(tag)))
    case (Some(start), Some(end)) => content[..start] + content[end + |CloseTag(tag)|..]
    case _ => content
  }

  function ExtractTagBlock(content: string, tag: string): Option<string> {
    match Find(content, OpenTag(tag))
    case None => None
    case Some(i) =>
      var body := content[i + |OpenTag(tag)|..];
      match Find(body, CloseTag(tag))
      case None => None
      case Some(j) => Some(body[..j])
  }

  /** The lines that survive collapsing: a blank line right behind a blank one is dropped. */
  function Kept(lines: seq<string>, lastBlank: bool): seq<string> {
    if lines == [] then []
    else if IsBlank(lines[0]) && lastBlank then Kept(lines[1..], lastBlank)
    else [lines[0]] + Kept(lines[1..], IsBlank(lines[0]))
  }

  /** Every line followed by a line feed. */
  function Unlines(lines: seq<string>): string {
    if lines == [] then "" else lines[0] + "\n" + Unlines(lines[1..])
  }

  function Collapsed(content: string): string {
    Unlines(Kept(Lines(content), false))
  }

  lemma CollapseStep(lines: seq<string>, i: nat, lastBlank: bool)
    requires i < |lines|
    ensures Unlines(Kept(lines[i..], lastBlank)) ==
            if IsBlank(lines[i]) && lastBlank then Unlines(Kept(lines[i + 1..], lastBlank))
            else lines[i] + "\n" + Unlines(Kept(lines[i + 1..], IsBlank(lines[i])))
  {
    hide IsBlank;
    assert lines[i..][0] == lines[i] && lines[i..][1..] == lines[i + 1..];
    if !(IsBlank(lines[i]) && lastBlank) {
      var later := Kept(lines[i + 1..], IsBlank(lines[i]));
      assert Kept(lines[i..], lastBlank) == [lines[i]] + later;
      assert ([lines[i]] + later)[1..] == later;
    }
  }

  lemma CollapseStart(content: string)
    ensures "" + Unlines(Kept(Lines(content)[0..], false)) == Collapsed(content)
  {
    assert Lines(content)[0..] == Lines(content);
  }

  method CollapseBlankLines(content: string) returns (result: string)
    ensures result == Collapsed(content)
  {
    hide IsBlank, Kept, Lines, Unlines, Collapsed;
    result := "";
    var lastBlank := false;
    var lines := Lines(content);
    CollapseStart(content);
    for i := 0 to |lines|
      invariant result + Unlines(Kept(lines[i..], lastBlank)) == Collapsed(content)
    {
      CollapseStep(lines, i, lastBlank);
      var isBlank := IsBlank(lines[i]);
      if isBlank && lastBlank {
        continue;
      }
      Regroup(result, lines[i], Unlines(Kept(lines[i + 1..], isBlank)));
      result := result + lines[i] + "\n";
      lastBlank := isBlank;
    }
    assert lines[|lines|..] == [];
    CollapseNothing(lastBlank);
  }

  lemma Regroup(a: string, b: string, c: string)
    ensures a + (b + "\n" + c) == (a + b + "\n") + c
  {
  }

  lemma CollapseNothing(lastBlank: bool)
    ensures Unlines(Kept([], lastBlank)) == ""
  {
  }

  function Format(summary: string): string {
    var body := StripTagBlock(summary, "analysis");
    var formatted :=
      match ExtractTagBlock(body, "summary")
      case Some(content) =>
        Replace(body, OpenTag("summary") + content + CloseTag("summary"), "Summary:\n" + Trim(content))
      case None => body;
    Trim(Collapsed(formatted))
  }

  predicate IsHeading(line: string) {
    line == "" || line == "Summary:" || line == TITLE
  }

  /** Trimmed lines before the first timeline header, headings and blanks left out. */
  function HighlightLines(lines: seq<string>): seq<string> {
    if lines == [] then []
    else
      var trimmed := TrimEnd(lines[0]);
      if trimmed == TIMELINE_HEADER then []
      else if IsHeading(trimmed) then HighlightLines(lines[1..])
      else [trimmed] + HighlightLines(lines[1..])
  }

  /** Trimmed lines behind a timeline header, up to a blank one. */
  function BelowHeader(lines: seq<string>): seq<string> {
    if lines == [] then []
    else
      var trimmed := TrimEnd(lines[0]);
      if trimmed == TIMELINE_HEADER then BelowHeader(lines[1..])
      else if trimmed == "" then []
      else [trimmed] + BelowHeader(lines[1..])
  }

  function TimelineLines(lines: seq<string>): seq<string> {
    if lines == [] then []
    else if TrimEnd(lines[0]) == TIMELINE_HEADER then BelowHeader(lines[1..])
    else TimelineLines(lines[1..])
  }

  function Highlights(summary: string): seq<string> {
    HighlightLines(Lines(Format(summary)))
  }

  function Timeline(summary: string): seq<string> {
    TimelineLines(Lines(Format(summary)))
  }

  method ExtractSummaryHighlights(summary: string) returns (lines: seq<string>)
    ensures lines == Highlights(summary)
  {
    hide TrimEnd, IsHeading, Format;
    lines := [];
    var inTimeline := false;
    var all := Lines(Format(summary));
    for i := 0 to |all|
      invariant lines + (if inTimeline then [] else HighlightLines(all[i..])) == HighlightLines(all)
    {
      var trimmed := TrimEnd(all[i]);
      assert all[i..][0] == all[i] && all[i..][1..] == all[i + 1..];
      if IsHeading(trimmed) {
        HeaderIsNoHeading(trimmed);
        continue;
      }
      if trimmed == TIMELINE_HEADER {
        inTimeline := true;
        continue;
      }
      if inTimeline {
        continue;
      }
      assert lines + ([trimmed] + HighlightLines(all[i + 1..])) == (lines + [trimmed]) + HighlightLines(all[i + 1..]);
      lines := lines + [trimmed];
    }
    assert all[|all|..] == [];
  }

  lemma HeaderIsNoHeading(line: string)
    requires IsHeading(line)
    ensures line != TIMELINE_HEADER
  {
  }

  lemma TimelineStep(all: seq<string>, i: nat)
    requires i < |all|
    ensures TimelineLines(all[i..]) ==
            if TrimEnd(all[i]) == TIMELINE_HEADER then BelowHeader(all[i + 1..]) else TimelineLines(all[i + 1..])
    ensures BelowHeader(all[i..]) ==
            if TrimEnd(all[i]) == TIMELINE_HEADER then BelowHeader(all[i + 1..])
            else if TrimEnd(all[i]) == "" then [] else [TrimEnd(all[i])] + BelowHeader(all[i + 1..])
  {
    hide TrimEnd;
    assert all[i..][0] == all[i] && all[i..][1..] == all[i + 1..];
  }

  method ExtractSummaryTimeline(summary: string) returns (lines: seq<string>)
    ensures lines == Timeline(summary)
  {
    hide TrimEnd, Format, Lines, TimelineLines, BelowHeader;
    lines := [];
    var inTimeline := false;
    var all := Lines(Format(summary));
    assert all[0..] == all;
    for i := 0 to |all|
      invariant !inTimeline ==> lines == [] && TimelineLines(all[i..]) == TimelineLines(all)
      invariant inTimeline ==> lines + BelowHeader(all[i..]) == TimelineLines(all)
    {
      var trimmed := TrimEnd(all[i]);
      TimelineStep(all, i);
      if trimmed == TIMELINE_HEADER {
        assert !inTimeline ==> [] + BelowHeader(all[i + 1..]) == BelowHeader(all[i + 1..]);
        inTimeline := true;
        continue;
      }
      if !inTimeline {
        continue;
      }
      if trimmed == "" {
        return;
      }
      assert lines + ([trimmed] + BelowHeader(all[i + 1..])) == (lines + [trimmed]) + BelowHeader(all[i + 1..]);
      lines := lines + [trimmed];
    }
    assert all[|all|..] == [];
    NoTimeline();
  }

  lemma NoTimeline()
    ensures TimelineLines([]) == [] && BelowHeader([]) == []
  {
  }

  function Prefixed(prefix: string, lines: seq<string>): (r: seq<string>)
    ensures |r| == |lines| && forall i :: 0 <= i < |lines| ==> r[i] == prefix + lines[i]
  {
    seq(|lines|, i requires 0 <= i < |lines| => prefix + lines[i])
  }

  function Section(header: string, lines: seq<string>): seq<string> {
    if lines == [] then [] else [header] + Prefixed("  ", lines)
  }

  /** The body of a merged summary: old highlights, new highlights, new timeline. */
  function MergedLines(earlier: seq<string>, added: seq<string>, timeline: seq<string>): seq<string> {
    Prefixed("- ", earlier) + Section(NEW_CONTEXT_HEADER, added) + Section(TIMELINE_HEADER, timeline)
  }

  /** Lines between the summary tags, under the title. */
  function Wrap(lines: seq<string>): string {
    Join([OpenTag("summary"), TITLE] + lines + [CloseTag("summary")])
  }

  method MergeCompactSummaries(existing: Option<string>, newSummary: string) returns (merged: string)
    ensures merged == Merge(existing, newSummary)
  {
    hide Highlights, Timeline, Format, Wrap, Join, Section, OpenTag, CloseTag, MergedLines;
    if existing.None? {
      return newSummary;
    }
    var previousHighlights := ExtractSummaryHighlights(existing.value);
    var newFormatted := Format(newSummary);
    var newHighlights := ExtractSummaryHighlights(newFormatted);
    var newTimeline := ExtractSummaryTimeline(newFormatted);
    var lines := [OpenTag("summary"), TITLE];
    if previousHighlights != [] {
      lines := lines + Prefixed("- ", previousHighlights);
    }
    assert lines == [OpenTag("summary"), TITLE] + Prefixed("- ", previousHighlights);
    lines := AddSection(lines, NEW_CONTEXT_HEADER, newHighlights);
    lines := AddSection(lines, TIMELINE_HEADER, newTimeline);
    lines := lines + [CloseTag("summary")];
    WrapMerged(lines, previousHighlights, newHighlights, newTimeline);
    merged := Join(lines);
  }

  /** A section is added only when it has lines. */
  method AddSection(lines: seq<string>, header: string, items: seq<string>) returns (r: seq<string>)
    ensures r == lines + Section(header, items)
  {
    r := lines;
    if items != [] {
      r := r + [header];
      r := r + Prefixed("  ", items);
    }
  }

  lemma WrapMerged(lines: seq<string>, earlier: seq<string>, added: seq<string>, timeline: seq<string>)
    requires lines == [OpenTag("summary"), TITLE] + Prefixed("- ", earlier) + Section(NEW_CONTEXT_HEADER, added)
                      + Section(TIMELINE_HEADER, timeline) + [CloseTag("summary")]
    ensures Join(lines) == Wrap(MergedLines(earlier, added, timeline))
  {
    hide Prefixed, Section, OpenTag, CloseTag, Join;
    assert lines == [OpenTag("summary"), TITLE] + MergedLines(earlier, added, timeline) + [CloseTag("summary")];
  }

  function Merge(existing: Option<string>, newSummary: string): string {
    match existing
    case None => newSummary
    case Some(e) =>
      var n := Format(newSummary);
      Wrap(MergedLines(Highlights(e), Highlights(n), Timeline(n)))
  }

  // --- The continuation message ---

  function ContinuationMessage(summary: string, suppressFollowUp: bool, recentPreserved: bool): string {
    PREAMBLE + Format(summary)
    + (if recentPreserved then "\n\n" + RECENT_NOTE else "")
    + if suppressFollowUp then "\n" + ResumeInstruction() else ""
  }

  /** The part before the first occurrence, or everything. */
  function Before(s: string, marker: string): string {
    match Find(s, marker)
    case Some(i) => s[..i]
    case None => s
  }

  /** The summary inside the text of a continuation message. */
  function RecoverSummary(text: string): Option<string> {
    if |PREAMBLE| <= |text| && text[..|PREAMBLE|] == PREAMBLE then
      var summary := Before(text[|PREAMBLE|..], "\n\n" + RECENT_NOTE);
      Some(Trim(Before(summary, "\n" + ResumeInstruction())))
    else None
  }
}
