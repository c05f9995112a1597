/** What a continuation message gives back, and what later merges keep of it. */
module SummarySurvival {
  import opened Text
  import opened SummaryText
  import opened SummaryReading
  import opened SummaryRoundTrip

  // --- Recovering the summary from its continuation message ---

  /** Line feeds only at the start: one, or two. */
  ghost predicate IsMarker(marker: string) {
    marker != "" && marker[0] == '\n' && forall k :: 2 <= k < |marker| ==> marker[k] != '\n'
  }

  /** A marker cannot begin in text that does not end with a line feed and end behind it. */
  lemma MarkerInside(f: string, rest: string, marker: string, p: nat)
    requires IsMarker(marker) && p < |f| && f[|f| - 1] != '\n' && rest != "" && rest[0] == '\n'
    requires OccursAt(f + rest, marker, p)
    ensures OccursAt(f, marker, p)
  {
    if p + |marker| <= |f| {
      assert (f + rest)[p..p + |marker|] == f[p..p + |marker|];
    } else {
      OccurrenceChar(f + rest, marker, p, 0);
      OccurrenceChar(f + rest, marker, p, |f| - p);
      assert false;
    }
  }

  lemma StillOccurs(f: string, rest: string, marker: string, i: nat)
    requires OccursAt(f, marker, i)
    ensures OccursAt(f + rest, marker, i)
  {
    assert (f + rest)[..|f|] == f;
    assert (f + rest)[i..i + |marker|] == f[i..i + |marker|];
  }

  /** Cutting at a marker that follows `f` gives `f` back exactly when `f` holds no such marker. */
  lemma CutBehind(f: string, marker: string, tail: string)
    requires IsMarker(marker) && IsTrimmed(f)
    ensures !Contains(f, marker) ==> Before(f + marker + tail, marker) == f
    ensures Contains(f, marker) ==> |Before(f + marker + tail, marker)| < |f|
  {
    var s := f + (marker + tail);
    assert f + marker + tail == s;
    assert s[|f|..|f| + |marker|] == marker;
    assert OccursAt(s, marker, |f|);
    if i: nat :| OccursAt(f, marker, i) {
      StillOccurs(f, marker + tail, marker, i);
    } else {
      forall p: nat | p < |f|
        ensures !OccursAt(s, marker, p)
      {
        if OccursAt(s, marker, p) {
          MarkerInside(f, marker + tail, marker, p);
        }
      }
    }
  }

  lemma CutNothing(s: string, marker: string)
    requires marker != ""
    ensures !Contains(s, marker) ==> Before(s, marker) == s
    ensures Contains(s, marker) ==> |Before(s, marker)| < |s|
  {
  }

  lemma LineCharacter(f: string, line: string, k: nat)
    requires OneLine(line)
    ensures k < |line| ==> (f + ("\n" + line))[|f| + 1 + k] != '\n'
  {
  }

  /** The recent-messages marker is not made by a text and a following single line. */
  lemma NoteNotInInstruction(f: string, marker: string, line: string)
    requires IsMarker(marker) && |marker| > 1 && marker[1] == '\n'
    requires IsTrimmed(f) && OneLine(line) && line != "" && !Contains(f, marker)
    ensures !Contains(f + ("\n" + line), marker)
  {
    var s := f + ("\n" + line);
    if p: nat :| OccursAt(s, marker, p) {
      if p < |f| {
        MarkerInside(f, "\n" + line, marker, p);
      } else {
        LineCharacter(f, line, p - |f|);
        OccurrenceChar(s, marker, p, 1);
        assert false;
      }
    }
  }

  lemma MarkersAreMarkers()
    ensures IsMarker("\n\n" + RECENT_NOTE) && IsMarker("\n" + ResumeInstruction())
    ensures OneLine(ResumeInstruction()) && ResumeInstruction() != ""
  {
    hide Instruction;
    NotesAreOneLine();
    var note, instruction := "\n\n" + RECENT_NOTE, "\n" + ResumeInstruction();
    assert forall k :: 2 <= k < |note| ==> note[k] == RECENT_NOTE[k - 2];
    assert forall k :: 1 <= k < |instruction| ==> instruction[k] == ResumeInstruction()[k - 1];
  }

  /** The formatted summary with its two optional closing notes. */
  function Closed(f: string, suppressFollowUp: bool, recentPreserved: bool): string {
    f + (if recentPreserved then "\n\n" + RECENT_NOTE else "")
      + if suppressFollowUp then "\n" + ResumeInstruction() else ""
  }

  lemma MessageIsPreambleThenClosed(summary: string, q: bool, r: bool)
    ensures RecoverSummary(ContinuationMessage(summary, q, r))
            == Some(Trim(Before(Before(Closed(Format(summary), q, r), "\n\n" + RECENT_NOTE), "\n" + ResumeInstruction())))
  {
    hide Format, Trim, Before, Instruction, ResumeInstruction, PREAMBLE, RECENT_NOTE;
    var text := ContinuationMessage(summary, q, r);
    assert text == PREAMBLE + Closed(Format(summary), q, r);
    assert text[..|PREAMBLE|] == PREAMBLE && text[|PREAMBLE|..] == Closed(Format(summary), q, r);
  }

  lemma CutsShrink(s: string, marker: string)
    ensures |Trim(s)| <= |s| && |Before(s, marker)| <= |s|
  {
    TrimStartIsSuffix(s);
    TrimEndIsPrefix(TrimStart(s));
  }

  lemma CutInHead(f: string, rest: string, marker: string)
    requires marker != "" && Contains(f, marker)
    ensures |Before(f + rest, marker)| < |f|
  {
    var i: nat :| OccursAt(f, marker, i);
    assert (f + rest)[i..i + |marker|] == f[i..i + |marker|];
    assert OccursAt(f + rest, marker, i);
  }

  lemma SecondCut(f: string, once: string, line: string)
    requires IsTrimmed(f) && IsMarker("\n" + line)
    requires once == f || once == f + ("\n" + line) || |once| < |f|
    ensures Trim(Before(once, "\n" + line)) == f <==> |once| >= |f| && !Contains(f, "\n" + line)
  {
    hide Contains, IsMarker, Before, Trim, IsTrimmed;
    var marker := "\n" + line;
    CutsShrink(once, marker);
    CutsShrink(Before(once, marker), marker);
    TrimTrimmed(f);
    if once == f {
      CutNothing(f, marker);
    } else if once == f + marker {
      CutBehind(f, marker, "");
      assert f + marker + "" == f + marker;
    }
  }

  /** Both cuts, for any two markers and any of the four ways a text may be closed. */
  lemma TwoCuts(f: string, note: string, line: string, q: bool, r: bool)
    requires IsTrimmed(f) && OneLine(line) && line != ""
    requires IsMarker(note) && |note| > 1 && note[1] == '\n' && IsMarker("\n" + line)
    ensures var s := f + (if r then note else "") + if q then "\n" + line else "";
            Trim(Before(Before(s, note), "\n" + line)) == f
            <==> !Contains(f, note) && !Contains(f, "\n" + line)
  {
    hide Contains, IsMarker, Before, Trim, IsTrimmed;
    FirstCut(f, note, line, q, r);
    var s := f + (if r then note else "") + if q then "\n" + line else "";
    SecondCut(f, Before(s, note), line);
  }

  lemma FirstCut(f: string, note: string, line: string, q: bool, r: bool)
    requires IsTrimmed(f) && OneLine(line) && line != ""
    requires IsMarker(note) && |note| > 1 && note[1] == '\n'
    ensures var s := f + (if r then note else "") + if q then "\n" + line else "";
            && (Contains(f, note) ==> |Before(s, note)| < |f|)
            && (!Contains(f, note) ==> Before(s, note) == f || Before(s, note) == f + ("\n" + line))
  {
    hide Contains, Before, IsTrimmed, IsMarker;
    var tail := if q then "\n" + line else "";
    var s := f + (if r then note else "") + tail;
    if Contains(f, note) {
      CutInHead(f, (if r then note else "") + tail, note);
      assert s == f + ((if r then note else "") + tail);
    } else if r {
      CutBehind(f, note, tail);
    } else if q {
      NoteNotInInstruction(f, note, line);
      assert s == f + ("\n" + line);
      CutNothing(s, note);
    } else {
      assert s == f;
      CutNothing(f, note);
    }
  }

  /**
   * A continuation message gives its formatted summary back exactly when that summary holds
   * neither of the two notes the message may be closed with.
   */
  lemma RecoveredIff(summary: string, q: bool, r: bool)
    ensures var f := Format(summary);
            RecoverSummary(ContinuationMessage(summary, q, r)) == Some(f)
            <==> !Contains(f, "\n\n" + RECENT_NOTE) && !Contains(f, "\n" + ResumeInstruction())
  {
    MarkersAreMarkers();
    FormatTrimmed(summary);
    MessageIsPreambleThenClosed(summary, q, r);
    hide Instruction, ResumeInstruction, RECENT_NOTE, Contains, IsMarker, Before, Trim, IsTrimmed, Format, RecoverSummary,
         ContinuationMessage;
    TwoCuts(Format(summary), "\n\n" + RECENT_NOTE, ResumeInstruction(), q, r);
  }

  /** A summary that quotes one of the closing notes behind a blank line. */
  const QUOTING := "a\n\n" + RECENT_NOTE

  /** Such a summary is not recovered, whatever notes its own message is closed with. */
  lemma QuotedNoteIsLost(q: bool, r: bool)
    ensures Format(QUOTING) == QUOTING
    ensures RecoverSummary(ContinuationMessage(QUOTING, q, r)) != Some(QUOTING)
  {
    hide Format, RecoverSummary, ContinuationMessage, RECENT_NOTE;
    QuotingFormats();
    QuotingHoldsNote();
    RecoveredIff(QUOTING, q, r);
  }

  lemma QuotingHoldsNote()
    ensures OccursAt(QUOTING, "\n\n" + RECENT_NOTE, 1)
  {
    hide RECENT_NOTE;
    assert QUOTING[1..] == "\n\n" + RECENT_NOTE;
  }

  lemma NoteInk()
    ensures RECENT_NOTE != "" && RECENT_NOTE[0] == 'R' && RECENT_NOTE[|RECENT_NOTE| - 1] == '.'
    ensures OneLine(RECENT_NOTE) && '<' !in RECENT_NOTE && !IsBlank(RECENT_NOTE)
  {
    hide IsBlank;
    NoteOneLine();
    BlankIff(RECENT_NOTE);
    assert !IsWhitespace(RECENT_NOTE[0]);
  }

  lemma QuotingFormats()
    ensures Format(QUOTING) == QUOTING
  {
    hide RECENT_NOTE, Trim, Collapsed, OpenTag, CloseTag, Find, Contains, IsBlank;
    NoteInk();
    var text := QUOTING;
    OpenTagStart("analysis");
    OpenTagStart("summary");
    NoTagWithoutBracket(text, OpenTag("analysis"));
    NoTagWithoutBracket(text, OpenTag("summary"));
    FindAbsent(text, OpenTag("analysis"));
    FindAbsent(text, OpenTag("summary"));
    QuotingCollapses();
    TrimLineEnd(text);
  }

  lemma OpenTagStart(tag: string)
    ensures OpenTag(tag) != "" && OpenTag(tag)[0] == '<'
  {
  }

  lemma TrimLineEnd(text: string)
    requires text != "" && IsTrimmed(text)
    ensures Trim(text + "\n") == text
  {
    var s := text + "\n";
    assert s[0] == text[0] && s[..|s| - 1] == text && s[|s| - 1] == '\n';
    TrimStartTrimmed(s);
    assert TrimEnd(s) == TrimEnd(text);
  }

  lemma QuotingCollapses()
    ensures Collapsed(QUOTING) == QUOTING + "\n"
  {
    hide RECENT_NOTE, IsBlank;
    NoteInk();
    BlankIff("a");
    BlankIff("");
    var lines := ["a", "", RECENT_NOTE];
    assert lines[1..] == ["", RECENT_NOTE] && lines[1..][1..] == [RECENT_NOTE] && [RECENT_NOTE][1..] == [];
    assert "a" + "\n" + ("" + "\n" + RECENT_NOTE) == QUOTING;
    assert Join([RECENT_NOTE]) == RECENT_NOTE;
    assert Join(["", RECENT_NOTE]) == "" + "\n" + RECENT_NOTE;
    assert Join(lines) == QUOTING;
    SplitJoin(lines);
    QuotingLines(lines);
    assert Kept([RECENT_NOTE], true) == [RECENT_NOTE];
    assert Kept(["", RECENT_NOTE], false) == ["", RECENT_NOTE];
    assert Kept(lines, false) == lines;
    assert Unlines([RECENT_NOTE]) == RECENT_NOTE + "\n" + "" == RECENT_NOTE + "\n";
    assert Unlines(["", RECENT_NOTE]) == "" + "\n" + Unlines([RECENT_NOTE]);
    assert Unlines(lines) == "a" + "\n" + Unlines(["", RECENT_NOTE]);
    assert "a" + "\n" + ("" + "\n" + (RECENT_NOTE + "\n")) == QUOTING + "\n";
  }

  lemma QuotingLines(lines: seq<string>)
    requires lines == ["a", "", RECENT_NOTE] && SplitLf(QUOTING) == lines && RECENT_NOTE != ""
    ensures Lines(QUOTING) == lines
  {
    hide RECENT_NOTE, SplitLf;
    assert lines[..2] == ["a", ""];
    assert StripAll(["a", ""]) == ["a", ""];
    assert ["a", ""] + [RECENT_NOTE] == lines;
  }

  lemma FormatTrimmed(summary: string)
    ensures IsTrimmed(Format(summary))
  {
    hide Trim, IsTrimmed, Collapsed, StripTagBlock, ExtractTagBlock, Replace;
    var body := StripTagBlock(summary, "analysis");
    match ExtractTagBlock(body, "summary")
    case Some(content) =>
      TrimResult(Collapsed(Replace(body, OpenTag("summary") + content + CloseTag("summary"), "Summary:\n" + Trim(content))));
    case None => TrimResult(Collapsed(body));
  }

  /** A clean summary is always recovered. */
  lemma CleanSummaryRecovered(lines: seq<string>, q: bool, r: bool)
    requires AllClean(lines)
    ensures RecoverSummary(ContinuationMessage(Wrap(lines), q, r)) == Some(Format(Wrap(lines)))
  {
    hide Instruction, ResumeInstruction, Contains, Format, RecoverSummary, ContinuationMessage, Wrap, Clean, ReadText, IsTrimmed;
    var f := Format(Wrap(lines));
    FormattedReading(lines);
    NotesAreLineStarts(f, RECENT_NOTE);
    NotesAreLineStarts(f, ResumeInstruction());
    RecoveredIff(Wrap(lines), q, r);
  }

  lemma MarkerStartsLine(f: string, p: string)
    ensures Contains(f, "\n" + p) ==> Contains("\n" + f, "\n" + p)
    ensures Contains(f, "\n\n" + p) ==> Contains(f, "\n" + p)
  {
    var s := "\n" + f;
    if i: nat :| OccursAt(f, "\n" + p, i) {
      assert s[i + 1..i + 1 + |p| + 1] == f[i..i + |p| + 1];
      assert OccursAt(s, "\n" + p, i + 1);
    }
    if i: nat :| OccursAt(f, "\n\n" + p, i) {
      assert ("\n\n" + p)[1..] == "\n" + p;
      assert f[i..i + 2 + |p|][1..] == f[i + 1..i + 2 + |p|];
      assert OccursAt(f, "\n" + p, i + 1);
    }
  }

  lemma NotesAreLineStarts(f: string, p: string)
    requires NoLineStarts(f, p)
    ensures !Contains(f, "\n\n" + p) && !Contains(f, "\n" + p)
  {
    hide Contains;
    MarkerStartsLine(f, p);
  }

  // --- Merging ---

  /** The one highlight a dash turns into the timeline header. */
  const BARE_HEADER := "Key timeline:"

  /** What the extractors return: trimmed, not blank, not a header. */
  ghost predicate Extracted(lines: seq<string>) {
    forall l :: l in lines ==> l != "" && TrimEnd(l) == l && l != TIMELINE_HEADER
  }

  lemma TrimEndTwice(s: string)
    ensures TrimEnd(TrimEnd(s)) == TrimEnd(s)
  {
  }

  lemma CleanLinePrefix(l: string, k: nat)
    requires Clean(l) && k <= |l|
    ensures Clean(l[..k])
  {
    hide Contains, Instruction;
    AbsentFromPrefix(l, k, "<analysis>");
    AbsentFromPrefix(l, k, "<summary>");
    AbsentFromPrefix(l, k, "</summary>");
    StartsLikePrefix(l, k, RECENT_NOTE);
    StartsLikePrefix(l, k, ResumeInstruction());
  }

  lemma StartsLikePrefix(l: string, k: nat, p: string)
    requires k <= |l|
    ensures StartsWith(l[..k], p) ==> StartsWith(l, p)
  {
  }

  lemma {:induction false} HighlightsExtracted(lines: seq<string>)
    ensures Extracted(HighlightLines(lines))
    ensures AllClean(lines) ==> AllClean(HighlightLines(lines))
  {
    hide TrimEnd, Clean;
    if lines != [] {
      TrimEndTwice(lines[0]);
      HighlightsExtracted(lines[1..]);
      if AllClean(lines) {
        assert Clean(lines[0]);
        TrimEndIsPrefix(lines[0]);
        CleanLinePrefix(lines[0], |TrimEnd(lines[0])|);
      }
    }
  }

  lemma {:induction false} BelowExtracted(lines: seq<string>)
    ensures Extracted(BelowHeader(lines))
    ensures AllClean(lines) ==> AllClean(BelowHeader(lines))
  {
    hide TrimEnd, Clean;
    if lines != [] {
      TrimEndTwice(lines[0]);
      BelowExtracted(lines[1..]);
      if AllClean(lines) {
        assert Clean(lines[0]);
        TrimEndIsPrefix(lines[0]);
        CleanLinePrefix(lines[0], |TrimEnd(lines[0])|);
      }
    }
  }

  lemma {:induction false} TimelineExtracted(lines: seq<string>)
    ensures Extracted(TimelineLines(lines))
    ensures AllClean(lines) ==> AllClean(TimelineLines(lines))
  {
    hide TrimEnd, Clean;
    if lines != [] {
      TimelineExtracted(lines[1..]);
      BelowExtracted(lines[1..]);
    }
  }

  // --- Prefixed lines ---

  /** The two prefixes merging puts in front of a line. */
  predicate IsIndent(prefix: string) {
    prefix == "- " || prefix == "  "
  }

  lemma IndentAbsent(prefix: string, l: string, tag: string)
    requires IsIndent(prefix) && tag != "" && tag[0] == '<' && !Contains(l, tag)
    ensures !Contains(prefix + l, tag)
  {
    if i: nat :| OccursAt(prefix + l, tag, i) {
      OccurrenceChar(prefix + l, tag, i, 0);
      assert (prefix + l)[i..i + |tag|] == l[i - 2..i - 2 + |tag|];
      assert OccursAt(l, tag, i - 2);
    }
  }

  lemma IndentClean(prefix: string, l: string)
    requires IsIndent(prefix) && Clean(l)
    ensures Clean(prefix + l)
  {
    hide Contains, Instruction, StartsWith;
    IndentAbsent(prefix, l, "<analysis>");
    IndentAbsent(prefix, l, "<summary>");
    IndentAbsent(prefix, l, "</summary>");
    InstructionShape(10);
    assert RECENT_NOTE[0] == 'R' && prefix[0] in {'-', ' '};
    StartsLike(prefix + l, RECENT_NOTE, 0);
    StartsLike(prefix + l, ResumeInstruction(), 0);
  }

  lemma PrefixedClean(prefix: string, lines: seq<string>)
    requires IsIndent(prefix) && AllClean(lines)
    ensures AllClean(Prefixed(prefix, lines))
  {
    hide Clean;
    forall i | 0 <= i < |lines|
      ensures Clean(Prefixed(prefix, lines)[i])
    {
      assert lines[i] in lines;
      IndentClean(prefix, lines[i]);
    }
  }

  lemma HeadersClean()
    ensures Clean(NEW_CONTEXT_HEADER) && Clean(TIMELINE_HEADER)
  {
    hide Contains, Instruction, StartsWith;
    assert '<' !in NEW_CONTEXT_HEADER && '<' !in TIMELINE_HEADER;
    assert OneLine(NEW_CONTEXT_HEADER) && OneLine(TIMELINE_HEADER);
    NoTagsWithoutBracket(NEW_CONTEXT_HEADER);
    NoTagsWithoutBracket(TIMELINE_HEADER);
    InstructionShape(10);
    assert RECENT_NOTE[0] == 'R' && NEW_CONTEXT_HEADER[0] == '-' && TIMELINE_HEADER[0] == '-';
    StartsLike(NEW_CONTEXT_HEADER, RECENT_NOTE, 0);
    StartsLike(NEW_CONTEXT_HEADER, ResumeInstruction(), 0);
    StartsLike(TIMELINE_HEADER, RECENT_NOTE, 0);
    StartsLike(TIMELINE_HEADER, ResumeInstruction(), 0);
  }

  lemma MergedClean(earlier: seq<string>, added: seq<string>, timeline: seq<string>)
    requires AllClean(earlier) && AllClean(added) && AllClean(timeline)
    ensures AllClean(MergedLines(earlier, added, timeline))
  {
    hide Clean, Prefixed;
    HeadersClean();
    PrefixedClean("- ", earlier);
    PrefixedClean("  ", added);
    PrefixedClean("  ", timeline);
  }

  /** An indented extracted line is its own trimmed form and never a heading. */
  lemma IndentedLine(prefix: string, l: string)
    requires IsIndent(prefix) && l != "" && TrimEnd(l) == l
    ensures TrimEnd(prefix + l) == prefix + l && !IsHeading(prefix + l)
    ensures prefix + l == TIMELINE_HEADER <==> prefix == "- " && l == BARE_HEADER
  {
    TrimEndKeepsHead(prefix, l);
    assert (prefix + l)[0] == prefix[0];
    assert TITLE[0] == 'C' && TIMELINE_HEADER[0] == '-';
    assert TIMELINE_HEADER == "- " + BARE_HEADER;
    assert (prefix + l)[2..] == l && TIMELINE_HEADER[2..] == BARE_HEADER;
    assert (prefix + l)[..2] == prefix && TIMELINE_HEADER[..2] == "- ";
  }

  lemma TailOf(lines: seq<string>)
    requires lines != [] && Extracted(lines)
    ensures Extracted(lines[1..]) && lines[0] != "" && TrimEnd(lines[0]) == lines[0] && lines[0] in lines
    ensures forall l :: l in lines <==> l == lines[0] || l in lines[1..]
  {
    hide TrimEnd;
    assert lines == [lines[0]] + lines[1..];
    assert lines[0] in lines;
    forall l | l in lines[1..]
      ensures l != "" && TrimEnd(l) == l && l != TIMELINE_HEADER
    {
      assert l in lines;
    }
  }

  /** Indented lines are read back as they are, up to a dashed bare header. */
  lemma {:induction false} ReadIndented(prefix: string, lines: seq<string>, rest: seq<string>)
    requires IsIndent(prefix) && Extracted(lines)
    requires prefix == "- " ==> BARE_HEADER !in lines
    ensures HighlightLines(Prefixed(prefix, lines) + rest) == Prefixed(prefix, lines) + HighlightLines(rest)
    ensures TimelineLines(Prefixed(prefix, lines) + rest) == TimelineLines(rest)
  {
    hide TrimEnd, IsHeading;
    if lines == [] {
      assert Prefixed(prefix, lines) + rest == rest;
    } else {
      var all := Prefixed(prefix, lines) + rest;
      TailOf(lines);
      IndentedLine(prefix, lines[0]);
      assert all[0] == prefix + lines[0];
      assert all[1..] == Prefixed(prefix, lines[1..]) + rest;
      ReadIndented(prefix, lines[1..], rest);
      assert [prefix + lines[0]] + Prefixed(prefix, lines[1..]) == Prefixed(prefix, lines);
    }
  }

  lemma {:induction false} BelowIndented(lines: seq<string>)
    requires Extracted(lines)
    ensures BelowHeader(Prefixed("  ", lines)) == Prefixed("  ", lines)
  {
    hide TrimEnd, IsHeading;
    if lines != [] {
      var all := Prefixed("  ", lines);
      TailOf(lines);
      IndentedLine("  ", lines[0]);
      assert all[1..] == Prefixed("  ", lines[1..]);
      BelowIndented(lines[1..]);
      assert [all[0]] + Prefixed("  ", lines[1..]) == all;
    }
  }

  /** A bare header among the dashed lines hides itself and everything behind it. */
  lemma {:induction false} BareHeaderHides(lines: seq<string>, rest: seq<string>)
    requires Extracted(lines) && BARE_HEADER in lines
    ensures |HighlightLines(Prefixed("- ", lines) + rest)| < |lines|
  {
    hide TrimEnd, IsHeading;
    var all := Prefixed("- ", lines) + rest;
    TailOf(lines);
    IndentedLine("- ", lines[0]);
    assert all[0] == "- " + lines[0];
    if lines[0] != BARE_HEADER {
      assert all[1..] == Prefixed("- ", lines[1..]) + rest;
      BareHeaderHides(lines[1..], rest);
    }
  }

  lemma ReadKeepsLine(line: string, lines: seq<string>)
    requires TrimEnd(line) == line && !IsHeading(line) && line != TIMELINE_HEADER
    ensures HighlightLines([line] + lines) == [line] + HighlightLines(lines)
    ensures TimelineLines([line] + lines) == TimelineLines(lines)
  {
    hide TrimEnd, IsHeading;
    assert ([line] + lines)[1..] == lines;
  }

  /** A section with a header that is not the timeline's is read back whole. */
  lemma ReadSections(added: seq<string>, timeline: seq<string>)
    requires Extracted(added) && Extracted(timeline)
    ensures var all := Section(NEW_CONTEXT_HEADER, added) + Section(TIMELINE_HEADER, timeline);
            && HighlightLines(all) == Section(NEW_CONTEXT_HEADER, added)
            && TimelineLines(all) == Prefixed("  ", timeline)
  {
    HeadersTrimmed();
    hide TrimEnd, IsHeading, HighlightLines, TimelineLines;
    var last := Section(TIMELINE_HEADER, timeline);
    ReadTimelineSection(timeline);
    var all := Section(NEW_CONTEXT_HEADER, added) + last;
    if added == [] {
      assert all == last;
    } else {
      var indented := Prefixed("  ", added);
      ReadIndented("  ", added, last);
      ReadKeepsLine(NEW_CONTEXT_HEADER, indented + last);
      assert all == [NEW_CONTEXT_HEADER] + (indented + last);
      assert indented + [] == indented;
    }
  }

  lemma ReadTimelineSection(timeline: seq<string>)
    requires Extracted(timeline)
    ensures HighlightLines(Section(TIMELINE_HEADER, timeline)) == []
    ensures TimelineLines(Section(TIMELINE_HEADER, timeline)) == Prefixed("  ", timeline)
  {
    HeadersTrimmed();
    hide TrimEnd, IsHeading;
    var last := Section(TIMELINE_HEADER, timeline);
    if timeline != [] {
      BelowIndented(timeline);
      assert last[1..] == Prefixed("  ", timeline);
    }
  }

  lemma HeadersTrimmed()
    ensures TrimEnd(NEW_CONTEXT_HEADER) == NEW_CONTEXT_HEADER && TrimEnd(TIMELINE_HEADER) == TIMELINE_HEADER
    ensures !IsHeading(NEW_CONTEXT_HEADER) && NEW_CONTEXT_HEADER != TIMELINE_HEADER
  {
    assert NEW_CONTEXT_HEADER[2] == 'N' && TIMELINE_HEADER[2] == 'K';
    assert NEW_CONTEXT_HEADER[0] == '-' && TITLE[0] == 'C';
  }

  /** Merged lines read as the dashed old highlights, then the new section, then only the new timeline. */
  lemma ReadMergedIff(earlier: seq<string>, added: seq<string>, timeline: seq<string>)
    requires Extracted(earlier) && Extracted(added) && Extracted(timeline)
    ensures var all := MergedLines(earlier, added, timeline);
            HighlightLines(all) == Prefixed("- ", earlier) + Section(NEW_CONTEXT_HEADER, added)
            <==> BARE_HEADER !in earlier
    ensures BARE_HEADER !in earlier ==>
              TimelineLines(MergedLines(earlier, added, timeline)) == Prefixed("  ", timeline)
  {
    hide HighlightLines, TimelineLines, TrimEnd;
    var rest := Section(NEW_CONTEXT_HEADER, added) + Section(TIMELINE_HEADER, timeline);
    assert MergedLines(earlier, added, timeline) == Prefixed("- ", earlier) + rest;
    ReadSections(added, timeline);
    if BARE_HEADER in earlier {
      BareHeaderHides(earlier, rest);
    } else {
      ReadIndented("- ", earlier, rest);
    }
  }

  /** Merging the recovered old summary with a fresh one, in terms of their lines. */
  function NextLines(lines: seq<string>, later: seq<string>): seq<string> {
    MergedLines(HighlightLines(lines), HighlightLines(later), TimelineLines(later))
  }

  lemma MergeIsNextLines(lines: seq<string>, later: seq<string>)
    requires AllClean(lines) && AllClean(later)
    ensures Merge(Some(Format(Wrap(lines))), Wrap(later)) == Wrap(NextLines(lines, later))
    ensures AllClean(NextLines(lines, later))
  {
    hide Clean, HighlightLines, TimelineLines, MergedLines, Wrap, Format, Highlights, Timeline;
    WrappedReading(lines);
    WrappedReading(later);
    HighlightsExtracted(lines);
    HighlightsExtracted(later);
    TimelineExtracted(later);
    MergedClean(HighlightLines(lines), HighlightLines(later), TimelineLines(later));
  }

  /**
   * What a merged summary says: the old highlights behind a dash, then the new section, and as
   * timeline exactly the new one. This holds exactly when no old highlight is a bare header.
   */
  lemma MergeKeepsHighlights(lines: seq<string>, later: seq<string>)
    requires AllClean(lines) && AllClean(later)
    ensures var merged := Merge(Some(Format(Wrap(lines))), Wrap(later));
            && (Highlights(merged) == Prefixed("- ", HighlightLines(lines)) + Section(NEW_CONTEXT_HEADER, HighlightLines(later))
                <==> BARE_HEADER !in HighlightLines(lines))
            && (BARE_HEADER !in HighlightLines(lines) ==> Timeline(merged) == Prefixed("  ", TimelineLines(later)))
  {
    hide Clean, HighlightLines, TimelineLines, MergedLines, Wrap, Format, Highlights, Timeline, Merge, TrimEnd;
    MergeIsNextLines(lines, later);
    WrappedReading(NextLines(lines, later));
    HighlightsExtracted(lines);
    HighlightsExtracted(later);
    TimelineExtracted(later);
    ReadMergedIff(HighlightLines(lines), HighlightLines(later), TimelineLines(later));
  }

  // --- Surviving any number of merges ---

  function Dashes(n: nat): string {
    if n == 0 then "" else "- " + Dashes(n - 1)
  }

  /** The lines after merging with each fresh list of lines in turn. */
  function AfterMerges(lines: seq<string>, later: seq<seq<string>>): seq<string>
    decreases |later|
  {
    if later == [] then lines else AfterMerges(NextLines(lines, later[0]), later[1..])
  }

  lemma NextReading(lines: seq<string>, added: seq<string>)
    requires AllClean(lines) && AllClean(added) && BARE_HEADER !in HighlightLines(lines)
    ensures var next := NextLines(lines, added);
            && AllClean(next) && BARE_HEADER !in HighlightLines(next)
            && HighlightLines(next)
               == Prefixed("- ", HighlightLines(lines)) + Section(NEW_CONTEXT_HEADER, HighlightLines(added))
  {
    hide HighlightLines, TimelineLines, MergedLines, Clean, TrimEnd;
    MergeIsNextLines(lines, added);
    HighlightsExtracted(lines);
    HighlightsExtracted(added);
    TimelineExtracted(added);
    ReadMergedIff(HighlightLines(lines), HighlightLines(added), TimelineLines(added));
    NoBareHeader(HighlightLines(lines), HighlightLines(added));
  }

  /** After any number of merges the first highlights are still there, one dash per merge. */
  lemma {:induction false} HighlightsSurvive(lines: seq<string>, later: seq<seq<string>>)
    requires AllClean(lines) && BARE_HEADER !in HighlightLines(lines)
    requires forall f :: f in later ==> AllClean(f)
    ensures AllClean(AfterMerges(lines, later))
    ensures Prefixed(Dashes(|later|), HighlightLines(lines)) <= HighlightLines(AfterMerges(lines, later))
    decreases |later|
  {
    hide HighlightLines, NextLines, AllClean, Section, Prefixed, Dashes;
    if later == [] {
      NoDashes(HighlightLines(lines));
    } else {
      assert later[0] in later;
      NextReading(lines, later[0]);
      HighlightsSurvive(NextLines(lines, later[0]), later[1..]);
      DashesGrow(HighlightLines(lines), Section(NEW_CONTEXT_HEADER, HighlightLines(later[0])), |later| - 1);
    }
  }

  lemma NoDashes(lines: seq<string>)
    ensures Prefixed(Dashes(0), lines) == lines
  {
    NoPrefix(lines);
  }

  lemma NoPrefix(lines: seq<string>)
    ensures Prefixed("", lines) == lines
  {
    forall i | 0 <= i < |lines| ensures Prefixed("", lines)[i] == lines[i] {
      assert "" + lines[i] == lines[i];
    }
  }

  lemma NoBareHeader(h: seq<string>, added: seq<string>)
    ensures BARE_HEADER !in Prefixed("- ", h) + Section(NEW_CONTEXT_HEADER, added)
  {
    var all := Prefixed("- ", h) + Section(NEW_CONTEXT_HEADER, added);
    assert BARE_HEADER[0] == 'K' && NEW_CONTEXT_HEADER[0] == '-';
    forall i | 0 <= i < |all|
      ensures all[i] != BARE_HEADER
    {
      assert all[i][0] != 'K';
    }
  }

  lemma DashesGrow(h: seq<string>, more: seq<string>, n: nat)
    ensures Prefixed(Dashes(n + 1), h) <= Prefixed(Dashes(n), Prefixed("- ", h) + more)
  {
    DashesCommute(n);
    var now, after := Prefixed(Dashes(n + 1), h), Prefixed(Dashes(n), Prefixed("- ", h) + more);
    forall i | 0 <= i < |h|
      ensures now[i] == after[i]
    {
      assert Dashes(n) + ("- " + h[i]) == (Dashes(n) + "- ") + h[i];
    }
  }

  lemma {:induction false} DashesCommute(n: nat)
    ensures Dashes(n) + "- " == Dashes(n + 1)
  {
    if n > 0 {
      DashesCommute(n - 1);
      assert ("- " + Dashes(n - 1)) + "- " == "- " + (Dashes(n - 1) + "- ");
    }
  }
}
