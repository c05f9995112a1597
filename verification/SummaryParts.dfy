/** What the single steps on summary text do: dropping analysis, collapsing blanks, reading sections. */
module SummaryParts {
  import opened Text
  import opened SummaryText
  import opened SummaryReading
  import opened SummaryRoundTrip

  // --- The analysis block ---

  lemma TagsSpelled()
    ensures OpenTag("analysis") == "<analysis>" && CloseTag("analysis") == "</analysis>"
  {
  }

  /** The first closing bracket of markup decides where a tag can occur. */
  lemma NoTagInFront(a: string, rest: string, tag: string)
    requires '<' !in a && tag != "" && tag[0] == '<'
    ensures forall i: nat :: i < |a| ==> !OccursAt(a + rest, tag, i)
  {
    forall i: nat | i < |a|
      ensures !OccursAt(a + rest, tag, i)
    {
      NotIn(a, i);
      assert (a + rest)[i] == a[i];
    }
  }

  lemma NotIn(a: string, i: nat)
    requires i < |a| && '<' !in a
    ensures a[i] != '<'
  {
  }

  lemma FirstFound(s: string, pattern: string, i: nat)
    requires OccursAt(s, pattern, i) && forall j: nat :: j < i ==> !OccursAt(s, pattern, j)
    ensures Find(s, pattern) == Some(i)
  {
    hide OccursAt;
    var r := Find(s, pattern);
    assert r.Some? && !(r.value < i) && !(i < r.value);
  }

  /** An analysis block goes, with its tags; the text in front of it and behind it stays. */
  lemma AnalysisIsStripped(a: string, x: string, c: string)
    requires '<' !in a && '<' !in x
    ensures StripTagBlock(a + ("<analysis>" + (x + ("</analysis>" + c))), "analysis") == a + c
  {
    hide Find, OpenTag, CloseTag;
    TagsSpelled();
    var open, close := "<analysis>", "</analysis>";
    var tail := open + (x + (close + c));
    var s := a + tail;
    NoTagInFront(a, tail, open);
    assert s[|a|..|a| + |open|] == open;
    FirstFound(s, open, |a|);
    ClosesBehind(a, x, c);
    var end := |a| + |open| + |x|;
    FirstFound(s, close, end);
    assert s[..|a|] == a && s[end + |close|..] == c;
  }

  lemma ClosesBehind(a: string, x: string, c: string)
    requires '<' !in a && '<' !in x
    ensures var s := a + ("<analysis>" + (x + ("</analysis>" + c)));
            var end := |a| + 10 + |x|;
            OccursAt(s, "</analysis>", end) && forall j: nat :: j < end ==> !OccursAt(s, "</analysis>", j)
  {
    var open, close := "<analysis>", "</analysis>";
    var s := a + (open + (x + (close + c)));
    var end := |a| + |open| + |x|;
    assert s[end..end + |close|] == close;
    forall j: nat | j < end
      ensures !OccursAt(s, close, j)
    {
      if OccursAt(s, close, j) {
        OccurrenceChar(s, close, j, 0);
        OccurrenceChar(s, close, j, 1);
        if j < |a| {
          NotIn(a, j);
        } else if j < |a| + |open| {
          OpenCharacters(j - |a|);
        } else {
          NotIn(x, j - |a| - |open|);
        }
      }
    }
  }

  lemma OpenCharacters(k: nat)
    requires k < 10
    ensures "<analysis>"[k] != '<' || "<analysis>"[k + 1] != '/'
  {
  }

  /** So a summary is formatted as if it had no analysis. */
  lemma AnalysisIsInvisible(a: string, x: string, c: string)
    requires '<' !in a && '<' !in x && !Contains(a + c, "<analysis>")
    ensures Format(a + ("<analysis>" + (x + ("</analysis>" + c)))) == Format(a + c)
  {
    hide StripTagBlock, ExtractTagBlock, Replace, Collapsed, Trim;
    AnalysisIsStripped(a, x, c);
    NothingToStrip(a + c);
  }

  lemma NothingToStrip(s: string)
    requires !Contains(s, "<analysis>")
    ensures StripTagBlock(s, "analysis") == s
  {
    hide Find, OpenTag, CloseTag;
    TagsSpelled();
    FindAbsent(s, "<analysis>");
  }

  // --- Blank lines ---

  predicate NoDoubleBlank(lines: seq<string>) {
    forall i :: 0 < i < |lines| ==> !(IsBlank(lines[i - 1]) && IsBlank(lines[i]))
  }

  /** The lines that are not blank. */
  function Inked(lines: seq<string>): seq<string> {
    if lines == [] then [] else (if IsBlank(lines[0]) then [] else [lines[0]]) + Inked(lines[1..])
  }

  /** Of every run of blank lines one is left, and no other line is touched. */
  lemma {:induction false} CollapsesBlanks(lines: seq<string>, lastBlank: bool)
    ensures var kept := Kept(lines, lastBlank);
            && NoDoubleBlank(kept) && Inked(kept) == Inked(lines)
            && (lastBlank && kept != [] ==> !IsBlank(kept[0]))
            && (!lastBlank && lines != [] ==> kept != [] && kept[0] == lines[0])
  {
    hide IsBlank;
    if lines != [] {
      var blank := IsBlank(lines[0]);
      CollapsesBlanks(lines[1..], if blank && lastBlank then lastBlank else blank);
      if !(blank && lastBlank) {
        var rest := Kept(lines[1..], blank);
        assert ([lines[0]] + rest)[1..] == rest;
      }
    }
  }

  /** Lines without two blanks in a row stay as they are. */
  lemma {:induction false} CollapsedStays(lines: seq<string>, lastBlank: bool)
    requires NoDoubleBlank(lines) && (lastBlank && lines != [] ==> !IsBlank(lines[0]))
    ensures Kept(lines, lastBlank) == lines
  {
    hide IsBlank;
    if lines != [] {
      var rest := lines[1..];
      assert forall i :: 0 < i < |rest| ==> rest[i] == lines[i + 1] && rest[i - 1] == lines[i];
      CollapsedStays(rest, IsBlank(lines[0]));
      assert lines == [lines[0]] + rest;
    }
  }

  // --- Sections ---

  /** A trimmed line with ink that opens no section. */
  predicate IsItem(l: string) {
    l != "" && TrimEnd(l) == l && l != "- Key timeline:"
  }

  predicate AllItems(lines: seq<string>) {
    forall l :: l in lines ==> IsItem(l)
  }

  predicate NoTitles(lines: seq<string>) {
    forall l :: l in lines ==> l != "Summary:" && l != "Conversation summary:"
  }

  lemma ItemsBehindFirst(lines: seq<string>)
    requires lines != [] && AllItems(lines) && NoTitles(lines)
    ensures AllItems(lines[1..]) && NoTitles(lines[1..])
    ensures IsItem(lines[0]) && lines[0] != "Summary:" && lines[0] != "Conversation summary:"
  {
    hide IsItem;
    assert lines[0] in lines;
    assert forall l :: l in lines[1..] ==> l in lines;
  }

  predicate AllTitles(lines: seq<string>) {
    forall l :: l in lines ==> l in ["", "Summary:", "Conversation summary:"]
  }

  lemma TitlesAreTrimmed()
    ensures TrimEnd("") == "" && TrimEnd("Summary:") == "Summary:" && TrimEnd("Conversation summary:") == "Conversation summary:"
    ensures TrimEnd("- Key timeline:") == "- Key timeline:"
  {
    assert "Summary:"[7] == ':' && "Conversation summary:"[20] == ':' && "- Key timeline:"[14] == ':';
  }

  /**
   * Titles are left out, the items up to the timeline header are the highlights, and the items behind it
   * up to a blank line are the timeline.
   */
  lemma SectionsAreRead(titles: seq<string>, hs: seq<string>, ts: seq<string>, rest: seq<string>)
    requires AllTitles(titles) && AllItems(hs) && AllItems(ts)
    requires NoTitles(hs)
    ensures var lines := titles + (hs + (["- Key timeline:"] + (ts + ([""] + rest))));
            HighlightLines(lines) == hs && TimelineLines(lines) == ts
  {
    hide TrimEnd;
    var last := [""] + rest;
    var below := ["- Key timeline:"] + (ts + last);
    TitlesAreTrimmed();
    ItemsBelow(ts, last);
    assert below[1..] == ts + last;
    HighlightsAbove(hs, below);
    TitlesSkipped(titles, hs + below);
  }

  lemma {:induction false} TitlesSkipped(titles: seq<string>, lines: seq<string>)
    requires AllTitles(titles)
    ensures HighlightLines(titles + lines) == HighlightLines(lines) && TimelineLines(titles + lines) == TimelineLines(lines)
  {
    hide TrimEnd;
    if titles == [] {
      assert titles + lines == lines;
    } else {
      TitlesAreTrimmed();
      assert titles[0] in titles;
      TitlesSkipped(titles[1..], lines);
      assert (titles + lines)[1..] == titles[1..] + lines;
    }
  }

  lemma {:induction false} HighlightsAbove(hs: seq<string>, below: seq<string>)
    requires AllItems(hs) && below != [] && TrimEnd(below[0]) == "- Key timeline:"
    requires NoTitles(hs)
    ensures HighlightLines(hs + below) == hs && TimelineLines(hs + below) == BelowHeader(below[1..])
  {
    hide TrimEnd, BelowHeader;
    if hs == [] {
      assert hs + below == below;
    } else {
      ItemsBehindFirst(hs);
      assert (hs + below)[0] == hs[0];
      HighlightsAbove(hs[1..], below);
      assert (hs + below)[1..] == hs[1..] + below && [hs[0]] + hs[1..] == hs;
    }
  }

  lemma {:induction false} ItemsBelow(ts: seq<string>, last: seq<string>)
    requires AllItems(ts) && last != [] && TrimEnd(last[0]) == ""
    ensures BelowHeader(ts + last) == ts
  {
    hide TrimEnd;
    if ts == [] {
      assert ts + last == last;
    } else {
      assert ts[0] in ts;
      ItemsBelow(ts[1..], last);
      assert (ts + last)[1..] == ts[1..] + last && [ts[0]] + ts[1..] == ts;
    }
  }

  // --- The continuation message ---

  predicate EndsWith(s: string, end: string) {
    |end| <= |s| && s[|s| - |end|..] == end
  }

  /** The message holds the formatted summary, and says exactly what it is asked to say behind it. */
  lemma MessageSays(summary: string, q: bool, r: bool)
    ensures var m := ContinuationMessage(summary, q, r);
            var body := PREAMBLE + Format(summary);
            && StartsWith(m, body)
            && (q ==> EndsWith(m, "\n" + ResumeInstruction()))
            && (r ==> StartsWith(m[|body|..], "\n\n" + RECENT_NOTE))
            && (!q && !r ==> m == body)
            && |m| == |body| + (if q then 1 + |ResumeInstruction()| else 0) + (if r then 2 + |RECENT_NOTE| else 0)
  {
    hide Format, ResumeInstruction, PREAMBLE, RECENT_NOTE;
    var m, body := ContinuationMessage(summary, q, r), PREAMBLE + Format(summary);
    var note := if r then "\n\n" + RECENT_NOTE else "";
    var last := if q then "\n" + ResumeInstruction() else "";
    assert m == body + note + last;
    assert m[..|body|] == body && m[|m| - |last|..] == last && m[|body|..] == note + last;
  }

  /** The new context of a merge stands under its own header, indented, and needs none when it is empty. */
  lemma NewSectionIs(added: seq<string>)
    ensures Section(NEW_CONTEXT_HEADER, added) == if added == [] then [] else ["- Newly compacted context:"] + Prefixed("  ", added)
  {
  }
}
