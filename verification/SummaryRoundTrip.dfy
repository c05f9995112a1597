/** Printing a summary, parsing it back, and merging it with the next one. */
module SummaryRoundTrip {
  import opened Text
  import opened SummaryText
  import opened SummaryReading

  // --- Patterns that do not occur ---

  /** No line of the text starts with `p`. */
  ghost predicate NoLineStarts(text: string, p: string) {
    !Contains("\n" + text, "\n" + p)
  }

  lemma AbsentFromPart(s: string, t: string, u: string, pattern: string)
    requires !Contains(s + t + u, pattern)
    ensures !Contains(t, pattern)
  {
    if i: nat :| OccursAt(t, pattern, i) {
      assert (s + t + u)[|s| + i..|s| + i + |pattern|] == t[i..i + |pattern|];
      assert OccursAt(s + t + u, pattern, |s| + i);
    }
  }

  lemma AbsentFromPrefix(t: string, k: nat, pattern: string)
    requires !Contains(t, pattern) && k <= |t|
    ensures !Contains(t[..k], pattern)
  {
    assert "" + t[..k] + t[k..] == t;
    AbsentFromPart("", t[..k], t[k..], pattern);
  }

  lemma {:induction false} AbsentFromLine(text: string, l: string, pattern: string)
    requires !Contains(text, pattern) && l in SplitLf(text)
    ensures !Contains(l, pattern)
  {
    var lines := SplitLf(text);
    JoinSplit(text);
    hide SplitLf;
    AbsentFromJoined(lines, l, pattern);
  }

  lemma {:induction false} AbsentFromJoined(lines: seq<string>, l: string, pattern: string)
    requires !Contains(Join(lines), pattern) && l in lines
    ensures !Contains(l, pattern)
  {
    if |lines| > 1 {
      var rest := Join(lines[1..]);
      if l == lines[0] {
        assert "" + l + ("\n" + rest) == Join(lines);
        AbsentFromPart("", l, "\n" + rest, pattern);
      } else {
        assert (lines[0] + "\n") + rest + "" == Join(lines);
        AbsentFromPart(lines[0] + "\n", rest, "", pattern);
        AbsentFromJoined(lines[1..], l, pattern);
      }
    }
  }

  lemma {:induction false} AbsentFromUnlines(lines: seq<string>, pattern: string)
    requires OneLine(pattern) && pattern != ""
    requires forall l :: l in lines ==> !Contains(l, pattern)
    ensures !Contains(Unlines(lines), pattern)
  {
    if lines == [] {
      assert forall i: nat :: !OccursAt("", pattern, i);
    } else {
      AbsentFromUnlines(lines[1..], pattern);
      OccursAcrossLf(lines[0], Unlines(lines[1..]), pattern);
    }
  }

  /** Collapsing blank lines brings no pattern in. */
  lemma AbsentFromCollapsed(text: string, pattern: string)
    requires OneLine(pattern) && pattern != "" && !Contains(text, pattern)
    ensures !Contains(Collapsed(text), pattern)
  {
    hide Lines, Kept, Unlines, SplitLf;
    var kept := Kept(Lines(text), false);
    KeptAreLines(Lines(text), false);
    forall l | l in kept
      ensures !Contains(l, pattern)
    {
      var piece := LineIsPieceStart(text, l);
      AbsentFromLine(text, piece, pattern);
      AbsentFromPrefix(piece, |l|, pattern);
    }
    AbsentFromUnlines(kept, pattern);
  }

  // --- Lines that start with a pattern ---

  lemma {:induction false} NoLineStartsIff(lines: seq<string>, p: string)
    requires lines != [] && AllOneLine(lines) && OneLine(p)
    ensures NoLineStarts(Join(lines), p) <==> forall l :: l in lines ==> !StartsWith(l, p)
  {
    var s := "\n" + Join(lines);
    if |lines| == 1 {
      StartsOne(lines[0], p);
    } else {
      var rest := Join(lines[1..]);
      NoLineStartsIff(lines[1..], p);
      StartsAcross(lines[0], rest, p);
      assert s == "\n" + lines[0] + ("\n" + rest);
    }
  }

  lemma StartsOne(l: string, p: string)
    requires OneLine(l) && OneLine(p)
    ensures Contains("\n" + l, "\n" + p) <==> StartsWith(l, p)
  {
    var s := "\n" + l;
    if i: nat :| OccursAt(s, "\n" + p, i) {
      OccurrenceChar(s, "\n" + p, i, 0);
      assert i == 0;
      assert s[0..1 + |p|] == "\n" + p;
      assert l[..|p|] == s[1..1 + |p|] == p;
    }
    if StartsWith(l, p) {
      assert s[0..1 + |p|] == "\n" + p;
      assert OccursAt(s, "\n" + p, 0);
    }
  }

  lemma StartsAcross(l: string, rest: string, p: string)
    requires OneLine(l) && OneLine(p)
    ensures Contains("\n" + l + ("\n" + rest), "\n" + p) <==> StartsWith(l, p) || Contains("\n" + rest, "\n" + p)
  {
    var s := "\n" + l + ("\n" + rest);
    if i: nat :| OccursAt(s, "\n" + p, i) {
      StartsSomewhere(l, rest, p, i);
    }
    if StartsWith(l, p) {
      assert s[0..1 + |p|] == "\n" + p;
      assert OccursAt(s, "\n" + p, 0);
    }
    if j: nat :| OccursAt("\n" + rest, "\n" + p, j) {
      var i := 1 + |l| + j;
      assert ("\n" + rest)[j..j + 1 + |p|] == s[i..i + 1 + |p|];
      assert OccursAt(s, "\n" + p, i);
    }
  }

  lemma StartsSomewhere(l: string, rest: string, p: string, i: nat)
    requires OneLine(l) && OneLine(p)
    requires OccursAt("\n" + l + ("\n" + rest), "\n" + p, i)
    ensures StartsWith(l, p) || Contains("\n" + rest, "\n" + p)
  {
    var s := "\n" + l + ("\n" + rest);
    OccurrenceChar(s, "\n" + p, i, 0);
    assert s[i] == '\n';
    assert i == 0 || i >= 1 + |l|;
    if i == 0 {
      StartsAtZero(l, rest, p);
    } else {
      var j := i - 1 - |l|;
      assert ("\n" + rest)[j..j + 1 + |p|] == s[i..i + 1 + |p|];
      assert OccursAt("\n" + rest, "\n" + p, j);
    }
  }

  lemma StartsAtZero(l: string, rest: string, p: string)
    requires OneLine(l) && OneLine(p) && OccursAt("\n" + l + ("\n" + rest), "\n" + p, 0)
    ensures StartsWith(l, p)
  {
    var s := "\n" + l + ("\n" + rest);
    if |p| <= |l| {
      assert l[..|p|] == s[1..1 + |p|] == ("\n" + p)[1..];
    } else {
      OccurrenceChar(s, "\n" + p, 0, 1 + |l|);
      assert false;
    }
  }

  // --- Clean lines and texts ---

  /** A line that neither holds a tag nor starts like the notes of a continuation message. */
  ghost predicate Clean(l: string) {
    && OneLine(l)
    && !Contains(l, "<analysis>") && !Contains(l, "<summary>") && !Contains(l, "</summary>")
    && !StartsWith(l, RECENT_NOTE) && !StartsWith(l, ResumeInstruction())
  }

  ghost predicate AllClean(lines: seq<string>) {
    forall l :: l in lines ==> Clean(l)
  }

  ghost predicate CleanText(t: string) {
    && !Contains(t, "<analysis>") && !Contains(t, "<summary>") && !Contains(t, "</summary>")
    && NoLineStarts(t, RECENT_NOTE) && NoLineStarts(t, ResumeInstruction())
  }

  lemma TagsAreOneLine()
    ensures OneLine("<analysis>") && OneLine("<summary>") && OneLine("</summary>")
  {
  }

  lemma NotesAreOneLine()
    ensures OneLine(RECENT_NOTE) && OneLine(ResumeInstruction())
    ensures RECENT_NOTE != "" && ResumeInstruction() != ""
  {
    hide Instruction, OneLine;
    InstructionShape(10);
    NoteOneLine();
  }

  lemma CleanJoin(lines: seq<string>)
    requires lines != [] && AllClean(lines)
    ensures CleanText(Join(lines))
  {
    TagsAreOneLine();
    NotesAreOneLine();
    hide Join, Contains;
    forall l | l in lines ensures Clean(l) {
    }
    OccursInLine(lines, "<analysis>");
    OccursInLine(lines, "<summary>");
    OccursInLine(lines, "</summary>");
    NoLineStartsIff(lines, RECENT_NOTE);
    NoLineStartsIff(lines, ResumeInstruction());
  }

  lemma CleanPrefix(t: string, k: nat)
    requires CleanText(t) && k <= |t|
    ensures CleanText(t[..k])
  {
    hide Contains;
    AbsentFromPrefix(t, k, "<analysis>");
    AbsentFromPrefix(t, k, "<summary>");
    AbsentFromPrefix(t, k, "</summary>");
    assert ("\n" + t)[..k + 1] == "\n" + t[..k];
    AbsentFromPrefix("\n" + t, k + 1, "\n" + RECENT_NOTE);
    AbsentFromPrefix("\n" + t, k + 1, "\n" + ResumeInstruction());
  }

  lemma {:induction false} UnlinesIsJoin(lines: seq<string>)
    ensures Unlines(lines) == Join(lines + [""])
  {
    if lines != [] {
      UnlinesIsJoin(lines[1..]);
      assert (lines + [""])[1..] == lines[1..] + [""];
    }
  }

  lemma StartsFromCollapsed(text: string, p: string)
    requires OneLine(p) && p != "" && NoLineStarts(text, p)
    ensures NoLineStarts(Collapsed(text), p)
  {
    hide Lines, Kept, Unlines, SplitLf, NoLineStarts;
    var kept := Kept(Lines(text), false);
    KeptAreLines(Lines(text), false);
    LinesAreOneLine(text);
    JoinSplit(text);
    NoLineStartsIff(SplitLf(text), p);
    forall l | l in kept + [""]
      ensures OneLine(l) && !StartsWith(l, p)
    {
      if l != "" {
        assert l in kept;
        var piece := LineIsPieceStart(text, l);
        assert !StartsWith(piece, p);
        assert StartsWith(l, p) ==> StartsWith(piece, p);
      }
    }
    UnlinesIsJoin(kept);
    NoLineStartsIff(kept + [""], p);
  }

  lemma CleanCollapsed(t: string)
    requires CleanText(t)
    ensures CleanText(Collapsed(t))
  {
    hide Contains, NoLineStarts, Collapsed;
    TagsAreOneLine();
    NotesAreOneLine();
    AbsentFromCollapsed(t, "<analysis>");
    AbsentFromCollapsed(t, "<summary>");
    AbsentFromCollapsed(t, "</summary>");
    StartsFromCollapsed(t, RECENT_NOTE);
    StartsFromCollapsed(t, ResumeInstruction());
  }

  // --- Formatting a wrapped list of lines ---

  const SUMMARY_TAG := "<summary>"
  const SUMMARY_END := "</summary>"

  /** The wrapped lines between the tags. */
  function Body(lines: seq<string>): string {
    "\n" + Join([TITLE] + lines) + "\n"
  }

  /** The formatted text before trimming and collapsing. */
  function Heading(lines: seq<string>): string {
    Join(["Summary:", TITLE] + lines + [""])
  }

  lemma TagTexts()
    ensures OpenTag("summary") == SUMMARY_TAG && CloseTag("summary") == SUMMARY_END
    ensures OpenTag("analysis") == "<analysis>"
  {
    assert "<" + "summary" + ">" == "<summary>";
    assert "</" + "summary" + ">" == "</summary>";
    assert "<" + "analysis" + ">" == "<analysis>";
  }

  lemma WrapIsTaggedBody(lines: seq<string>)
    ensures Wrap(lines) == SUMMARY_TAG + Body(lines) + SUMMARY_END
  {
    var inner := [TITLE] + lines;
    TagTexts();
    hide OpenTag, CloseTag;
    assert [OpenTag("summary"), TITLE] + lines + [CloseTag("summary")] == [SUMMARY_TAG] + (inner + [SUMMARY_END]);
    hide Join;
    JoinConcat([SUMMARY_TAG], inner + [SUMMARY_END]);
    JoinConcat(inner, [SUMMARY_END]);
    JoinSingle(SUMMARY_TAG);
    JoinSingle(SUMMARY_END);
  }

  lemma JoinSingle(l: string)
    ensures Join([l]) == l
  {
  }

  lemma HeadingIsBody(lines: seq<string>)
    ensures Heading(lines) == "Summary:" + Body(lines)
    ensures Body(lines) == "\n" + (Join([TITLE] + lines) + "\n")
  {
    var inner := [TITLE] + lines;
    assert ["Summary:", TITLE] + lines + [""] == ["Summary:"] + (inner + [""]);
    hide Join;
    JoinConcat(["Summary:"], inner + [""]);
    JoinConcat(inner, [""]);
    JoinSingle("Summary:");
    JoinSingle("");
  }

  /** A tag whose first character is its only '<' cannot straddle the end of the body. */
  lemma TagInsideBody(body: string, tag: string, i: nat)
    requires i < |body| && tag != "" && OccursAt(body + tag, tag, i)
    requires forall k :: 0 < k < |tag| ==> tag[k] != tag[0]
    ensures OccursAt(body, tag, i)
  {
    if i + |tag| <= |body| {
      assert (body + tag)[i..i + |tag|] == body[i..i + |tag|];
    } else {
      OccurrenceChar(body + tag, tag, i, |body| - i);
      assert false;
    }
  }

  lemma ClosingTagFound(body: string, tag: string)
    requires tag != "" && !Contains(body, tag)
    requires forall k :: 0 < k < |tag| ==> tag[k] != tag[0]
    ensures Find(body + tag, tag) == Some(|body|)
  {
    var s := body + tag;
    assert s[|body|..|body| + |tag|] == tag;
    assert OccursAt(s, tag, |body|);
    forall i: nat | i < |body|
      ensures !OccursAt(s, tag, i)
    {
      if OccursAt(s, tag, i) {
        TagInsideBody(body, tag, i);
      }
    }
  }

  lemma ReplaceWhole(s: string, with: string)
    requires s != ""
    ensures Replace(s, s, with) == with
  {
    assert OccursAt(s, s, 0);
    assert s[|s|..] == "";
    assert Find("", s).None?;
    assert s[..0] + with + "" == with;
  }

  lemma {:induction false} TrimEndKeepsHead(a: string, w: string)
    requires TrimEnd(w) != ""
    ensures TrimEnd(a + w) == a + TrimEnd(w)
  {
    if IsWhitespace(w[|w| - 1]) {
      TrimEndKeepsHead(a, w[..|w| - 1]);
      assert (a + w)[..|a + w| - 1] == a + w[..|w| - 1];
    }
  }

  lemma InkStays(w: string)
    requires w != "" && !IsWhitespace(w[0])
    ensures TrimEnd(w) != "" && TrimEnd(w)[0] == w[0]
  {
    TrimsToNothing(w);
  }

  lemma HeadingClean(lines: seq<string>)
    requires AllClean(lines)
    ensures CleanText(Heading(lines))
  {
    var all := ["Summary:", TITLE] + lines + [""];
    TitlesClean();
    forall l | l in all ensures Clean(l) {
    }
    CleanJoin(all);
  }

  lemma NoTagWithoutBracket(l: string, tag: string)
    requires '<' !in l && tag != "" && tag[0] == '<'
    ensures !Contains(l, tag)
  {
    if i: nat :| OccursAt(l, tag, i) {
      OccurrenceChar(l, tag, i, 0);
    }
  }

  lemma NoTagsWithoutBracket(l: string)
    requires '<' !in l
    ensures !Contains(l, "<analysis>") && !Contains(l, "<summary>") && !Contains(l, "</summary>")
  {
    hide Contains;
    NoTagWithoutBracket(l, "<analysis>");
    NoTagWithoutBracket(l, "<summary>");
    NoTagWithoutBracket(l, "</summary>");
  }

  lemma TitlesHaveNoBracket()
    ensures '<' !in "Summary:" && '<' !in TITLE && '<' !in ""
    ensures OneLine("Summary:") && OneLine(TITLE) && OneLine("")
  {
  }

  lemma TitlesDoNotStartNotes()
    ensures !StartsWith("Summary:", RECENT_NOTE) && !StartsWith("Summary:", ResumeInstruction())
    ensures !StartsWith(TITLE, RECENT_NOTE) && !StartsWith(TITLE, ResumeInstruction())
    ensures !StartsWith("", RECENT_NOTE) && !StartsWith("", ResumeInstruction())
  {
    hide Instruction, StartsWith;
    InstructionShape(10);
    assert TITLE[0] == 'C' && TITLE[3] == 'v' && RECENT_NOTE[0] == 'R';
    StartsLike("Summary:", RECENT_NOTE, 0);
    StartsLike("Summary:", ResumeInstruction(), 0);
    StartsLike(TITLE, RECENT_NOTE, 0);
    StartsLike(TITLE, ResumeInstruction(), 3);
    EmptyStartsNothing(RECENT_NOTE);
    EmptyStartsNothing(ResumeInstruction());
  }

  lemma EmptyStartsNothing(p: string)
    requires p != ""
    ensures !StartsWith("", p)
  {
  }

  lemma TitlesClean()
    ensures Clean("Summary:") && Clean(TITLE) && Clean("")
  {
    hide Contains, StartsWith, OneLine, Instruction, ResumeInstruction;
    TitlesHaveNoBracket();
    TitlesDoNotStartNotes();
    NoTagsWithoutBracket("Summary:");
    NoTagsWithoutBracket(TITLE);
    NoTagsWithoutBracket("");
  }

  lemma StartsLike(l: string, p: string, k: nat)
    requires k < |p| && k < |l| && l[k] != p[k]
    ensures !StartsWith(l, p)
  {
    assert |p| <= |l| ==> l[..|p|][k] == l[k];
  }

  lemma BodyHasNoEnd(lines: seq<string>)
    requires AllClean(lines)
    ensures !Contains(Body(lines), SUMMARY_END)
  {
    hide Contains, Body, Heading;
    HeadingClean(lines);
    HeadingIsBody(lines);
    assert Heading(lines) == "Summary:" + Body(lines) + "";
    AbsentFromPart("Summary:", Body(lines), "", SUMMARY_END);
  }

  lemma TagsHoldNoAnalysis()
    ensures !Contains(SUMMARY_TAG, "<analysis>") && !Contains(SUMMARY_END, "<analysis>")
  {
    if i: nat :| OccursAt(SUMMARY_END, "<analysis>", i) {
      OccurrenceChar(SUMMARY_END, "<analysis>", i, 1);
    }
  }

  lemma WrapHasNoAnalysis(lines: seq<string>)
    requires AllClean(lines)
    ensures StripTagBlock(Wrap(lines), "analysis") == Wrap(lines)
  {
    hide Contains, Join, OpenTag, CloseTag;
    TagTexts();
    TagsHoldNoAnalysis();
    TitlesClean();
    TagsAreOneLine();
    var all := [SUMMARY_TAG, TITLE] + lines + [SUMMARY_END];
    forall l | l in all ensures !Contains(l, "<analysis>") {
      assert l in lines ==> Clean(l);
    }
    OccursInLine(all, "<analysis>");
    FindAbsent(Wrap(lines), "<analysis>");
  }

  lemma ExtractTagged(body: string)
    requires !Contains(body, SUMMARY_END)
    ensures ExtractTagBlock(SUMMARY_TAG + body + SUMMARY_END, "summary") == Some(body)
  {
    hide Contains, OpenTag, CloseTag;
    TagTexts();
    var m := SUMMARY_TAG + body + SUMMARY_END;
    assert OccursAt(m, SUMMARY_TAG, 0) by {
      assert m[0..|SUMMARY_TAG|] == SUMMARY_TAG;
    }
    assert Find(m, SUMMARY_TAG) == Some(0);
    assert m[|SUMMARY_TAG|..] == body + SUMMARY_END;
    SummaryEndShape();
    ClosingTagFound(body, SUMMARY_END);
    assert (body + SUMMARY_END)[..|body|] == body;
  }

  lemma SummaryEndShape()
    ensures SUMMARY_END != "" && forall k :: 0 < k < |SUMMARY_END| ==> SUMMARY_END[k] != SUMMARY_END[0]
  {
  }

  /** A wrapped list of lines, formatted. */
  lemma FormatWrap(lines: seq<string>)
    requires AllClean(lines)
    ensures Format(Wrap(lines)) == Trim(Collapsed(TrimEnd(Heading(lines))))
  {
    hide Contains, Join, OpenTag, CloseTag, Body, Wrap, Collapsed, Trim, Replace, StripTagBlock, ExtractTagBlock;
    TagTexts();
    WrapHasNoAnalysis(lines);
    WrapIsTaggedBody(lines);
    BodyHasNoEnd(lines);
    ExtractTagged(Body(lines));
    ReplaceWhole(Wrap(lines), "Summary:\n" + Trim(Body(lines)));
    TrimmedHeading(lines);
  }

  lemma TrimmedHeading(lines: seq<string>)
    ensures "Summary:\n" + Trim(Body(lines)) == TrimEnd(Heading(lines))
  {
    hide TrimEnd, Trim, TrimStart, Join;
    HeadingIsBody(lines);
    TitleFirst(lines);
    var w := Join([TITLE] + lines) + "\n";
    InkStays(w);
    LineFeedTrims(w);
    TrimEndKeepsHead("Summary:\n", w);
    assert Heading(lines) == "Summary:\n" + w;
  }

  lemma TitleFirst(lines: seq<string>)
    ensures var j := Join([TITLE] + lines); j != "" && j[0] == 'C'
  {
    assert TITLE[0] == 'C';
  }

  lemma LineFeedTrims(w: string)
    requires w != "" && !IsWhitespace(w[0])
    ensures Trim("\n" + w) == TrimEnd(w)
  {
    assert ("\n" + w)[1..] == w;
    TrimStartTrimmed(w);
  }

  // --- What a formatted summary says ---

  lemma CollapsedInk(t: string)
    requires t != "" && !IsWhitespace(t[0])
    ensures Collapsed(t) != "" && Collapsed(t)[0] == t[0]
  {
    var pieces := SplitLf(t);
    assert pieces[0] != "" && pieces[0][0] == t[0];
    hide SplitLf, IsBlank;
    var n := |pieces| - 1;
    var lines := Lines(t);
    assert lines != [] && lines[0] != "" && lines[0][0] == t[0] by {
      if n > 0 {
        assert StripAll(pieces[..n])[0] == StripCr(pieces[0]);
      }
    }
    hide Lines;
    assert Kept(lines, false)[0] == lines[0];
  }

  lemma TrimCollapsed(t: string)
    requires t != "" && !IsWhitespace(t[0])
    ensures var f := Trim(Collapsed(t)); f != "" && f[0] == t[0] && IsTrimmed(f) && ReadText(f) == ReadText(t)
    ensures CleanText(t) ==> CleanText(Trim(Collapsed(t)))
  {
    hide Collapsed, TrimEnd, ReadText, CleanText, TrimStart, Trim;
    CollapsedInk(t);
    var c := Collapsed(t);
    TrimResult(c);
    TrimOfInk(c);
    InkStays(c);
    ReadCollapsed(t);
    ReadTrimEnd(c);
    if CleanText(t) {
      CleanCollapsed(t);
      TrimEndIsPrefix(c);
      CleanPrefix(c, |TrimEnd(c)|);
    }
  }

  /** What is read off the heading and title lines is what is read off the lines below them. */
  lemma ReadHeading(lines: seq<string>)
    requires AllOneLine(lines)
    ensures ReadText(Heading(lines)).highlights == HighlightLines(lines)
    ensures ReadText(Heading(lines)).timeline == TimelineLines(lines)
  {
    TitlesHaveNoBracket();
    TitlesTrim();
    hide Join, TrimEnd, SplitLf, HighlightLines, TimelineLines, BelowHeader;
    var all := ["Summary:", TITLE] + lines;
    SplitJoin(all + [""]);
    ReadAppendBlank(all);
    assert all == ["Summary:"] + ([TITLE] + lines);
    ReadSkipsHeading("Summary:", [TITLE] + lines);
    ReadSkipsHeading(TITLE, lines);
  }

  lemma ReadSkipsHeading(heading: string, lines: seq<string>)
    requires IsHeading(TrimEnd(heading)) && TrimEnd(heading) != TIMELINE_HEADER
    ensures HighlightLines([heading] + lines) == HighlightLines(lines)
    ensures TimelineLines([heading] + lines) == TimelineLines(lines)
  {
    hide TrimEnd, IsHeading;
    assert ([heading] + lines)[1..] == lines;
  }

  lemma TitlesTrim()
    ensures TrimEnd("Summary:") == "Summary:" && TrimEnd(TITLE) == TITLE
    ensures "Summary:" != TIMELINE_HEADER && TITLE != TIMELINE_HEADER
  {
    assert TIMELINE_HEADER[0] == '-';
  }

  /** A formatted wrapped summary reads like its lines, and is clean and trimmed. */
  lemma FormattedReading(lines: seq<string>)
    requires AllClean(lines)
    ensures var f := Format(Wrap(lines));
            && f != "" && !IsWhitespace(f[0]) && IsTrimmed(f) && CleanText(f)
            && ReadText(f).highlights == HighlightLines(lines)
            && ReadText(f).timeline == TimelineLines(lines)
  {
    hide Collapsed, TrimEnd, ReadText, CleanText, Format, Wrap, Trim, Clean;
    var h := Heading(lines);
    assert AllOneLine(lines) by {
      forall l | l in lines ensures OneLine(l) {
        CleanIsOneLine(l);
      }
    }
    HeadingClean(lines);
    HeadingInk(lines);
    hide Heading;
    ReadHeading(lines);
    ReadTrimEnd(h);
    InkStays(h);
    TrimEndIsPrefix(h);
    CleanPrefix(h, |TrimEnd(h)|);
    TrimCollapsed(TrimEnd(h));
    FormatWrap(lines);
  }

  lemma CleanIsOneLine(l: string)
    requires Clean(l)
    ensures OneLine(l)
  {
  }

  lemma HeadingInk(lines: seq<string>)
    ensures Heading(lines) != "" && Heading(lines)[0] == 'S'
  {
    hide Body;
    HeadingIsBody(lines);
  }

  /** Text without tags is only collapsed and trimmed by formatting. */
  lemma ReformattedReading(t: string)
    requires t != "" && !IsWhitespace(t[0]) && CleanText(t)
    ensures Highlights(t) == ReadText(t).highlights && Timeline(t) == ReadText(t).timeline
  {
    hide Collapsed, TrimEnd, ReadText, Trim, Contains, OpenTag, CloseTag, NoLineStarts;
    TagTexts();
    FindAbsent(t, "<analysis>");
    FindAbsent(t, "<summary>");
    assert Format(t) == Trim(Collapsed(t));
    TrimCollapsed(t);
    ReadLines(Format(t));
  }

  /** Reading a wrapped summary, or its formatted text, gives what its lines say. */
  lemma WrappedReading(lines: seq<string>)
    requires AllClean(lines)
    ensures Highlights(Wrap(lines)) == HighlightLines(lines) && Timeline(Wrap(lines)) == TimelineLines(lines)
    ensures var f := Format(Wrap(lines));
            Highlights(f) == HighlightLines(lines) && Timeline(f) == TimelineLines(lines)
  {
    hide ReadText, CleanText, Wrap, Format, HighlightLines, TimelineLines, BelowHeader, Lines;
    FormattedReading(lines);
    ReformattedReading(Format(Wrap(lines)));
    ReadLines(Format(Wrap(lines)));
  }
}
