/** Highlights and timeline depend on a text's lines only up to blanks and trailing space. */
module SummaryReading {
  import opened Text
  import opened SummaryText

  /** What the two extractions read off a list of lines. */
  datatype Reading = Reading(highlights: seq<string>, timeline: seq<string>, below: seq<string>)

  function Read(lines: seq<string>): Reading {
    Reading(HighlightLines(lines), TimelineLines(lines), BelowHeader(lines))
  }

  function ReadText(text: string): Reading {
    Read(SplitLf(text))
  }

  // --- Trimming ---

  lemma {:induction false} TrimEndAppendSpace(s: string, c: char)
    requires IsWhitespace(c)
    ensures TrimEnd(s + [c]) == TrimEnd(s)
  {
    assert (s + [c])[..|s|] == s;
  }

  lemma TrimOfInk(s: string)
    requires s != "" && !IsWhitespace(s[0])
    ensures Trim(s) == TrimEnd(s)
  {
    TrimStartTrimmed(s);
  }

  // --- Reading modulo trailing space and blanks ---

  ghost predicate SameTrimmed(xs: seq<string>, ys: seq<string>) {
    |xs| == |ys| && forall i :: 0 <= i < |xs| ==> TrimEnd(xs[i]) == TrimEnd(ys[i])
  }

  lemma {:induction false} ReadCongruent(xs: seq<string>, ys: seq<string>)
    requires SameTrimmed(xs, ys)
    ensures Read(xs) == Read(ys)
  {
    hide TrimEnd, IsHeading;
    if xs != [] {
      assert TrimEnd(xs[0]) == TrimEnd(ys[0]);
      forall i | 0 <= i < |xs| - 1
        ensures TrimEnd(xs[1..][i]) == TrimEnd(ys[1..][i])
      {
        assert xs[1..][i] == xs[i + 1] && ys[1..][i] == ys[i + 1];
      }
      ReadCongruent(xs[1..], ys[1..]);
    }
  }

  lemma {:induction false} ReadAppendBlank(xs: seq<string>)
    ensures Read(xs + [""]) == Read(xs)
  {
    hide TrimEnd;
    EmptyTrims();
    var ys := xs + [""];
    if xs == [] {
      assert ys[1..] == [];
    } else {
      assert ys[0] == xs[0] && ys[1..] == xs[1..] + [""];
      ReadAppendBlank(xs[1..]);
    }
  }

  lemma EmptyTrims()
    ensures TrimEnd("") == "" && IsHeading("")
  {
  }

  lemma StripCrTrims(line: string)
    ensures TrimEnd(StripCr(line)) == TrimEnd(line)
  {
    if StripCr(line) != line {
      TrimEndAppendSpace(StripCr(line), '\r');
      assert StripCr(line) + ['\r'] == line;
    }
  }

  /** Dropping the last empty piece and the CRs changes nothing that is read. */
  lemma ReadLines(text: string)
    ensures Read(Lines(text)) == ReadText(text)
  {
    hide TrimEnd, SplitLf, Read, StripCr;
    var pieces := SplitLf(text);
    var n := |pieces| - 1;
    var last := pieces[n];
    var stripped := StripAll(pieces[..n]);
    forall i | 0 <= i < n + 1
      ensures TrimEnd((stripped + [last])[i]) == TrimEnd(pieces[i])
    {
      if i < n {
        StripCrTrims(pieces[i]);
      }
    }
    ReadCongruent(stripped + [last], pieces);
    if last == "" {
      ReadAppendBlank(stripped);
      assert Lines(text) == stripped;
    }
  }

  /** A further character extends the last line. */
  lemma SplitExtend(s: string, c: char)
    requires c != '\n'
    ensures var r := SplitLf(s); SplitLf(s + [c]) == r[..|r| - 1] + [r[|r| - 1] + [c]]
  {
    hide SplitLf;
    var r := SplitLf(s);
    var n := |r| - 1;
    JoinSplit(s);
    if n == 0 {
      assert r == [r[0]];
      SplitOneLine(s + [c]);
    } else {
      var init, last := r[..n], r[n];
      assert r == init + [last];
      JoinConcat(init, [last]);
      SplitJoin(init);
      SplitConcat(Join(init), last + [c]);
      SplitOneLine(last + [c]);
      assert s + [c] == Join(init) + "\n" + (last + [c]);
    }
  }

  /** A line feed ends the last line. */
  lemma SplitEnd(s: string)
    ensures SplitLf(s + "\n") == SplitLf(s) + [""]
  {
    SplitNothing();
    hide SplitLf;
    SplitConcat(s, "");
    assert s + "\n" + "" == s + "\n";
  }

  lemma SplitNothing()
    ensures SplitLf("") == [""]
  {
  }

  lemma ReadAppendSpace(s: string, c: char)
    requires IsWhitespace(c)
    ensures ReadText(s + [c]) == ReadText(s)
  {
    hide TrimEnd, SplitLf, Read;
    var r := SplitLf(s);
    if c == '\n' {
      SplitEnd(s);
      ReadAppendBlank(r);
    } else {
      SplitExtend(s, c);
      var last := r[|r| - 1];
      TrimEndAppendSpace(last, c);
      var q := r[..|r| - 1] + [last + [c]];
      assert SameTrimmed(q, r);
      ReadCongruent(q, r);
    }
  }

  lemma {:induction false} ReadTrimEnd(s: string)
    ensures ReadText(TrimEnd(s)) == ReadText(s)
  {
    hide ReadText;
    if s != "" && IsWhitespace(s[|s| - 1]) {
      var t := s[..|s| - 1];
      ReadTrimEnd(t);
      ReadAppendSpace(t, s[|s| - 1]);
      assert t + [s[|s| - 1]] == s;
    }
  }

  // --- Collapsing blank lines ---

  /** Dropping repeated blank lines: below a header, only while no blank one was seen. */
  lemma {:induction false} ReadKept(lines: seq<string>, lastBlank: bool)
    ensures HighlightLines(Kept(lines, lastBlank)) == HighlightLines(lines)
    ensures TimelineLines(Kept(lines, lastBlank)) == TimelineLines(lines)
    ensures !lastBlank ==> BelowHeader(Kept(lines, lastBlank)) == BelowHeader(lines)
  {
    hide TrimEnd, IsBlank;
    if lines != [] {
      var line := lines[0];
      BlankIff(line);
      var later := Kept(lines[1..], IsBlank(line));
      ReadKept(lines[1..], IsBlank(line));
      if IsBlank(line) && lastBlank {
        assert IsHeading(TrimEnd(line)) && TrimEnd(line) != TIMELINE_HEADER;
      } else {
        var kept := [line] + later;
        assert Kept(lines, lastBlank) == kept && kept[0] == line && kept[1..] == later;
      }
    }
  }

  lemma {:induction false} SplitUnlines(lines: seq<string>)
    requires AllOneLine(lines)
    ensures SplitLf(Unlines(lines)) == lines + [""]
  {
    if lines != [] {
      SplitUnlines(lines[1..]);
      SplitConcat(lines[0], Unlines(lines[1..]));
      SplitOneLine(lines[0]);
      assert [lines[0]] + (lines[1..] + [""]) == lines + [""];
    }
  }

  lemma {:induction false} KeptAreLines(lines: seq<string>, lastBlank: bool)
    ensures forall l :: l in Kept(lines, lastBlank) ==> l in lines
  {
    hide IsBlank;
    if lines != [] {
      KeptAreLines(lines[1..], lastBlank);
      KeptAreLines(lines[1..], IsBlank(lines[0]));
    }
  }

  /** A line as `str::lines` yields it is the start of a line feed separated piece. */
  lemma LineIsPieceStart(text: string, l: string) returns (piece: string)
    requires l in Lines(text)
    ensures piece in SplitLf(text) && |l| <= |piece| && l == piece[..|l|]
  {
    hide SplitLf;
    var pieces := SplitLf(text);
    var n := |pieces| - 1;
    var stripped := StripAll(pieces[..n]);
    if l in stripped {
      var i :| 0 <= i < n && stripped[i] == l;
      piece := pieces[i];
    } else {
      piece := pieces[n];
    }
  }

  lemma LinesAreOneLine(text: string)
    ensures AllOneLine(Lines(text))
  {
    hide Lines;
    forall l | l in Lines(text) ensures OneLine(l) {
      var piece := LineIsPieceStart(text, l);
    }
  }

  lemma CollapsedSplits(text: string)
    ensures SplitLf(Collapsed(text)) == Kept(Lines(text), false) + [""]
  {
    hide SplitLf, Lines, Kept, Unlines;
    LinesAreOneLine(text);
    KeptAreLines(Lines(text), false);
    SplitUnlines(Kept(Lines(text), false));
  }

  lemma ReadCollapsed(text: string)
    ensures ReadText(Collapsed(text)) == ReadText(text)
  {
    hide SplitLf, Lines, Kept, Collapsed, TrimEnd, HighlightLines, TimelineLines, BelowHeader;
    CollapsedSplits(text);
    ReadAppendBlank(Kept(Lines(text), false));
    ReadKept(Lines(text), false);
    ReadLines(text);
  }
}
