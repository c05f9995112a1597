/** The string operations of the standard library that the modelled code calls. */
module Text {

  datatype Option<+T> = None | Some(value: T)

  function Min(x: nat, y: nat): (m: nat) {
    if x <= y then x else y
  }

  /** The pieces put together again. */
  function Flatten<T>(pieces: seq<seq<T>>): seq<T> {
    if pieces == [] then [] else pieces[0] + Flatten(pieces[1..])
  }

  /** Unicode's White_Space property, as `char::is_whitespace` decides it. */
  predicate IsWhitespace(c: char) {
    || '\U{9}' <= c <= '\U{D}'
    || c == ' '
    || c == '\U{85}' || c == '\U{A0}' || c == '\U{1680}'
    || '\U{2000}' <= c <= '\U{200A}'
    || c == '\U{2028}' || c == '\U{2029}' || c == '\U{202F}' || c == '\U{205F}' || c == '\U{3000}'
  }

  function TrimStart(s: string): (r: string)
    ensures r != "" ==> !IsWhitespace(r[0])
  {
    if s != "" && IsWhitespace(s[0]) then TrimStart(s[1..]) else s
  }

  function TrimEnd(s: string): (r: string)
    ensures r != "" ==> !IsWhitespace(r[|r| - 1])
  {
    if s != "" && IsWhitespace(s[|s| - 1]) then TrimEnd(s[..|s| - 1]) else s
  }

  function Trim(s: string): string {
    TrimEnd(TrimStart(s))
  }

  predicate IsBlank(s: string) {
    Trim(s) == ""
  }

  /** Neither end is whitespace. */
  predicate IsTrimmed(s: string) {
    s != "" ==> !IsWhitespace(s[0]) && !IsWhitespace(s[|s| - 1])
  }

  predicate OccursAt(s: string, pattern: string, i: nat) {
    i + |pattern| <= |s| && s[i..i + |pattern|] == pattern
  }

  predicate StartsWith(s: string, prefix: string) {
    |prefix| <= |s| && s[..|prefix|] == prefix
  }

  ghost predicate Contains(s: string, pattern: string) {
    exists i :: OccursAt(s, pattern, i)
  }

  /** The first occurrence, as `str::find` returns it. */
  function Find(s: string, pattern: string): (r: Option<nat>)
    ensures r.Some? ==> OccursAt(s, pattern, r.value) && forall i: nat :: i < r.value ==> !OccursAt(s, pattern, i)
    ensures r.None? ==> forall i: nat :: !OccursAt(s, pattern, i)
  {
    FindFrom(s, pattern, 0)
  }

  function FindFrom(s: string, pattern: string, from: nat): (r: Option<nat>)
    requires forall i: nat :: i < from ==> !OccursAt(s, pattern, i)
    ensures r.Some? ==> OccursAt(s, pattern, r.value) && forall i: nat :: i < r.value ==> !OccursAt(s, pattern, i)
    ensures r.None? ==> forall i: nat :: !OccursAt(s, pattern, i)
    decreases |s| - from
  {
    if from + |pattern| > |s| then None
    else if OccursAt(s, pattern, from) then Some(from)
    else FindFrom(s, pattern, from + 1)
  }

  /** Every non-overlapping occurrence, left to right, as `str::replace` does. */
  function Replace(s: string, pattern: string, with: string): string
    requires pattern != ""
  {
    match Find(s, pattern)
    case None => s
    case Some(i) => s[..i] + with + Replace(s[i + |pattern|..], pattern, with)
  }

  /** `str::split('\n')`: always at least one piece. */
  function SplitLf(s: string): (r: seq<string>)
    ensures |r| > 0
    ensures forall l :: l in r ==> '\n' !in l
  {
    if s == "" then [""] else Grow(s[0], SplitLf(s[1..]))
  }

  /** A character put in front of the first of some lines. */
  function Grow(c: char, lines: seq<string>): (r: seq<string>)
    requires lines != []
    ensures r != []
    ensures (forall l :: l in lines ==> '\n' !in l) ==> forall l :: l in r ==> '\n' !in l
  {
    if c == '\n' then [""] + lines else [[c] + lines[0]] + lines[1..]
  }

  function Join(lines: seq<string>): string {
    if lines == [] then ""
    else if |lines| == 1 then lines[0]
    else lines[0] + "\n" + Join(lines[1..])
  }

  function StripCr(line: string): string {
    if line != "" && line[|line| - 1] == '\r' then line[..|line| - 1] else line
  }

  /** `str::lines`: an empty last piece is dropped, and a CR before a line feed with it. */
  function Lines(s: string): seq<string> {
    var pieces := SplitLf(s);
    var last := pieces[|pieces| - 1];
    StripAll(pieces[..|pieces| - 1]) + if last == "" then [] else [last]
  }

  function StripAll(lines: seq<string>): (r: seq<string>)
    ensures |r| == |lines|
    ensures forall i :: 0 <= i < |lines| ==> r[i] == StripCr(lines[i])
  {
    if lines == [] then [] else [StripCr(lines[0])] + StripAll(lines[1..])
  }

  predicate OneLine(s: string) {
    '\n' !in s
  }

  predicate AllOneLine(lines: seq<string>) {
    forall l :: l in lines ==> OneLine(l)
  }

  // --- Splitting and joining ---

  lemma {:induction false} SplitOneLine(s: string)
    requires OneLine(s)
    ensures SplitLf(s) == [s]
  {
    if s != "" {
      SplitOneLine(s[1..]);
      assert [s[0]] + s[1..] == s;
    }
  }

  lemma GrowConcat(c: char, r: seq<string>, t: seq<string>)
    requires r != []
    ensures Grow(c, r + t) == Grow(c, r) + t
  {
    assert (r + t)[0] == r[0] && (r + t)[1..] == r[1..] + t;
  }

  lemma {:induction false} SplitConcat(a: string, b: string)
    ensures SplitLf(a + "\n" + b) == SplitLf(a) + SplitLf(b)
  {
    hide Grow;
    var s := a + "\n" + b;
    if a == "" {
      assert s[1..] == b;
      EmptyLine(SplitLf(b));
    } else {
      SplitConcat(a[1..], b);
      assert s[1..] == a[1..] + "\n" + b && s[0] == a[0];
      GrowConcat(a[0], SplitLf(a[1..]), SplitLf(b));
    }
  }

  lemma EmptyLine(t: seq<string>)
    requires t != []
    ensures Grow('\n', t) == [""] + t
  {
  }

  lemma {:induction false} SplitJoin(lines: seq<string>)
    requires lines != [] && AllOneLine(lines)
    ensures SplitLf(Join(lines)) == lines
  {
    SplitOneLine(lines[0]);
    if |lines| > 1 {
      SplitJoin(lines[1..]);
      SplitConcat(lines[0], Join(lines[1..]));
      assert [lines[0]] + lines[1..] == lines;
    }
  }

  lemma {:induction false} JoinSplit(s: string)
    ensures Join(SplitLf(s)) == s
  {
    if s != "" {
      JoinSplit(s[1..]);
      var rest := SplitLf(s[1..]);
      if s[0] != '\n' {
        assert [[s[0]] + rest[0]] + rest[1..] == SplitLf(s);
        assert SplitLf(s)[1..] == rest[1..];
      } else {
        assert SplitLf(s)[1..] == rest;
      }
    }
  }

  lemma {:induction false} JoinConcat(a: seq<string>, b: seq<string>)
    requires a != [] && b != []
    ensures Join(a + b) == Join(a) + "\n" + Join(b)
  {
    if |a| == 1 {
      assert (a + b)[1..] == b;
    } else {
      JoinConcat(a[1..], b);
      assert (a + b)[1..] == a[1..] + b;
    }
  }

  // --- Searching ---

  lemma OccurrenceChar(s: string, pattern: string, i: nat, k: nat)
    requires OccursAt(s, pattern, i) && k < |pattern|
    ensures s[i + k] == pattern[k]
  {
    assert s[i..i + |pattern|][k] == pattern[k];
  }

  /** A pattern without a line feed lies inside one of the two lines. */
  lemma OccursAcrossLf(a: string, b: string, pattern: string)
    requires OneLine(pattern) && pattern != ""
    ensures Contains(a + "\n" + b, pattern) ==> Contains(a, pattern) || Contains(b, pattern)
  {
    var s := a + "\n" + b;
    if i: nat :| OccursAt(s, pattern, i) {
      if i + |pattern| <= |a| {
        assert s[i..i + |pattern|] == a[i..i + |pattern|];
        assert OccursAt(a, pattern, i);
      } else if |a| < i {
        var j := i - |a| - 1;
        assert s[i..i + |pattern|] == b[j..j + |pattern|];
        assert OccursAt(b, pattern, j);
      } else {
        OccurrenceChar(s, pattern, i, |a| - i);
        assert false;
      }
    }
  }

  /** A pattern without a line feed is found in a text only inside a line. */
  lemma {:induction false} OccursInLine(lines: seq<string>, pattern: string)
    requires OneLine(pattern) && pattern != ""
    requires forall l :: l in lines ==> !Contains(l, pattern)
    ensures !Contains(Join(lines), pattern)
  {
    if lines == [] {
      assert forall i: nat :: !OccursAt("", pattern, i);
    } else if |lines| > 1 {
      OccursInLine(lines[1..], pattern);
      OccursAcrossLf(lines[0], Join(lines[1..]), pattern);
    }
  }

  lemma FindAbsent(s: string, pattern: string)
    ensures Find(s, pattern).None? <==> !Contains(s, pattern)
  {
  }

  // --- Trimming ---

  lemma {:induction false} TrimStartIsSuffix(s: string)
    ensures var r := TrimStart(s); |r| <= |s| && r == s[|s| - |r|..]
  {
    hide IsWhitespace;
    if s != "" && IsWhitespace(s[0]) {
      TrimStartIsSuffix(s[1..]);
    }
  }

  lemma {:induction false} TrimEndIsPrefix(s: string)
    ensures var r := TrimEnd(s); |r| <= |s| && r == s[..|r|]
  {
    hide IsWhitespace;
    if s != "" && IsWhitespace(s[|s| - 1]) {
      TrimEndIsPrefix(s[..|s| - 1]);
    }
  }

  lemma {:induction false} TrimStartTrimmed(s: string)
    requires s != "" ==> !IsWhitespace(s[0])
    ensures TrimStart(s) == s
  {
  }

  lemma TrimTrimmed(s: string)
    requires IsTrimmed(s)
    ensures Trim(s) == s
  {
  }

  /** Trimming leaves something trimmed; text starting with ink keeps its start. */
  lemma TrimResult(s: string)
    ensures IsTrimmed(Trim(s))
  {
    var t := TrimStart(s);
    TrimEndIsPrefix(t);
    assert TrimEnd(t) != "" ==> TrimEnd(t)[0] == t[0];
  }

  ghost predicate AllSpace(s: string) {
    forall i :: 0 <= i < |s| ==> IsWhitespace(s[i])
  }

  lemma {:induction false} TrimsToNothing(s: string)
    ensures TrimEnd(s) == "" <==> AllSpace(s)
  {
    hide IsWhitespace;
    if s != "" && IsWhitespace(s[|s| - 1]) {
      TrimsToNothing(s[..|s| - 1]);
    }
  }

  lemma AllSpaceTail(s: string)
    requires s != "" && IsWhitespace(s[0])
    ensures AllSpace(s) <==> AllSpace(s[1..])
  {
    hide IsWhitespace;
    assert s == [s[0]] + s[1..];
  }

  lemma {:induction false} TrimsToNothingStart(s: string)
    ensures TrimStart(s) == "" <==> AllSpace(s)
  {
    hide IsWhitespace;
    if s != "" && IsWhitespace(s[0]) {
      TrimsToNothingStart(s[1..]);
      AllSpaceTail(s);
    }
  }

  /** A line is blank whichever end it is trimmed from. */
  lemma BlankIff(s: string)
    ensures IsBlank(s) <==> TrimEnd(s) == ""
    ensures IsBlank(s) <==> AllSpace(s)
  {
    hide IsWhitespace;
    TrimsToNothing(s);
    TrimsToNothingStart(s);
    TrimsToNothing(TrimStart(s));
    assert TrimStart(s) != "" ==> !IsWhitespace(TrimStart(s)[0]);
  }

  /** Space is trimmed off the end only down to ink in front of it. */
  lemma {:induction false} TrimEndBehindInk(a: string, b: string)
    requires a != "" && !IsWhitespace(a[|a| - 1])
    ensures TrimEnd(a + b) == a + TrimEnd(b)
  {
    hide IsWhitespace;
    if b == "" {
      assert a + b == a;
    } else if IsWhitespace(b[|b| - 1]) {
      var c := b[..|b| - 1];
      assert (a + b)[..|a + b| - 1] == a + c;
      TrimEndBehindInk(a, c);
    }
  }

  // --- Names up to ASCII case ---

  function LowerChar(c: char): char {
    if 'A' <= c <= 'Z' then c - 'A' + 'a' else c
  }

  function Lower(s: string): (r: string)
    ensures |r| == |s| && forall i :: 0 <= i < |s| ==> r[i] == LowerChar(s[i])
  {
    if s == "" then "" else [LowerChar(s[0])] + Lower(s[1..])
  }

  predicate EqIgnoreCase(a: string, b: string) {
    |a| == |b| && forall i :: 0 <= i < |a| ==> LowerChar(a[i]) == LowerChar(b[i])
  }

  lemma EqIgnoreCaseIff(a: string, b: string)
    ensures EqIgnoreCase(a, b) <==> Lower(a) == Lower(b)
  {
    if Lower(a) == Lower(b) {
      forall i | 0 <= i < |a|
        ensures LowerChar(a[i]) == LowerChar(b[i])
      {
        assert Lower(a)[i] == Lower(b)[i];
      }
    }
  }

  function TrimStartMatches(s: string, c: char): (r: string)
    ensures r != "" ==> r[0] != c
  {
    if s != "" && s[0] == c then TrimStartMatches(s[1..], c) else s
  }

  predicate AllAre(s: string, c: char) {
    forall i :: 0 <= i < |s| ==> s[i] == c
  }

  lemma {:induction false} MatchesDropped(a: string, x: string, c: char)
    requires AllAre(a, c) && (x != "" ==> x[0] != c)
    ensures TrimStartMatches(a + x, c) == x
  {
    if a == "" {
      assert a + x == x;
    } else {
      MatchesDropped(a[1..], x, c);
      assert (a + x)[1..] == a[1..] + x;
    }
  }

  lemma {:induction false} SpaceDropped(a: string, x: string)
    requires AllSpace(a) && (x != "" ==> !IsWhitespace(x[0]))
    ensures TrimStart(a + x) == x
  {
    hide IsWhitespace;
    if a == "" {
      assert a + x == x;
      TrimStartTrimmed(x);
    } else {
      SpaceDropped(a[1..], x);
      assert (a + x)[1..] == a[1..] + x;
    }
  }

  lemma {:induction false} SurroundingsTrimmed(a: string, x: string, b: string)
    requires AllSpace(a) && AllSpace(b) && IsTrimmed(x)
    ensures Trim(a + (x + b)) == x
  {
    hide IsWhitespace, TrimStart, TrimEnd;
    if x == "" {
      assert AllSpace(a + (x + b));
      BlankIff(a + (x + b));
    } else {
      SpaceDropped(a, x + b);
      TrimEndBehindInk(x, b);
      TrimsToNothing(b);
    }
  }
}
