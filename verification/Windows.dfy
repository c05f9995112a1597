/** Splitting a text into overlapping windows. */
module Windows {
  import opened Text

  /** The overlap in effect: always shorter than a window. */
  function Overlap(maxChars: nat, overlap: nat): (o: nat)
    requires maxChars > 0
    ensures o < maxChars
  {
    Min(overlap, maxChars - 1)
  }

  /** All windows from `start` on, blank ones included. */
  function WindowsFrom(text: string, maxChars: nat, o: nat, start: nat): (r: seq<string>)
    requires o < maxChars && start < |text|
    ensures r != []
    decreases |text| - start
  {
    var end := Min(start + maxChars, |text|);
    if end >= |text| then [text[start..end]]
    else [text[start..end]] + WindowsFrom(text, maxChars, o, start + (maxChars - o))
  }

  function AllWindows(text: string, maxChars: nat, overlap: nat): seq<string> {
    if maxChars == 0 || text == "" then []
    else WindowsFrom(text, maxChars, Overlap(maxChars, overlap), 0)
  }

  function NotBlank(windows: seq<string>): seq<string> {
    if windows == [] then []
    else if IsBlank(windows[0]) then NotBlank(windows[1..])
    else [windows[0]] + NotBlank(windows[1..])
  }

  /** The windows that are stored. */
  function Chunks(text: string, maxChars: nat, overlap: nat): seq<string> {
    NotBlank(AllWindows(text, maxChars, overlap))
  }

  method ChunkText(text: string, maxChars: nat, overlap: nat) returns (out: seq<string>)
    ensures out == Chunks(text, maxChars, overlap)
  {
    hide IsBlank, WindowsFrom, NotBlank;
    out := [];
    NothingKept();
    if maxChars == 0 {
      return;
    }
    var o := Min(overlap, maxChars - 1);
    if text == "" {
      return;
    }
    var start := 0;
    while true
      invariant start < |text|
      invariant out + NotBlank(WindowsFrom(text, maxChars, o, start)) == Chunks(text, maxChars, overlap)
      decreases |text| - start
    {
      var end := Min(start + maxChars, |text|);
      var piece := text[start..end];
      NextWindow(text, maxChars, o, start);
      if !IsBlank(piece) {
        out := out + [piece];
      }
      if end >= |text| {
        break;
      }
      start := start + (maxChars - o);
    }
  }

  lemma NothingKept()
    ensures NotBlank([]) == []
  {
  }

  lemma NextWindow(text: string, maxChars: nat, o: nat, start: nat)
    requires o < maxChars && start < |text|
    ensures var end := Min(start + maxChars, |text|);
            var later := if end >= |text| then [] else NotBlank(WindowsFrom(text, maxChars, o, start + (maxChars - o)));
            NotBlank(WindowsFrom(text, maxChars, o, start))
            == if IsBlank(text[start..end]) then later else [text[start..end]] + later
  {
    hide IsBlank;
    var end := Min(start + maxChars, |text|);
    var rest := if end >= |text| then [] else WindowsFrom(text, maxChars, o, start + (maxChars - o));
    assert WindowsFrom(text, maxChars, o, start) == [text[start..end]] + rest;
    assert ([text[start..end]] + rest)[1..] == rest;
  }

  // --- The windows cover the text ---

  /** The first window, then every next one without the characters it repeats. */
  function WithoutOverlaps(windows: seq<string>, o: nat): string
    requires LongEnough(windows, o)
  {
    if windows == [] then ""
    else if |windows| == 1 then windows[0]
    else WithoutOverlaps(windows[..|windows| - 1], o) + windows[|windows| - 1][o..]
  }

  /** Where window `k` starts when windows are `step` characters apart. */
  function StartOf(k: nat, step: nat): nat {
    if k == 0 then 0 else StartOf(k - 1, step) + step
  }

  /** Window `k` is the text from `k` steps on, cut at a window's length. */
  lemma {:induction false} WindowAt(text: string, maxChars: nat, o: nat, start: nat, k: nat)
    requires o < maxChars && start < |text| && k < |WindowsFrom(text, maxChars, o, start)|
    ensures var s := start + StartOf(k, maxChars - o);
            && s < |text|
            && WindowsFrom(text, maxChars, o, start)[k] == text[s..Min(s + maxChars, |text|)]
            && (k + 1 < |WindowsFrom(text, maxChars, o, start)| <==> s + maxChars < |text|)
    decreases k
  {
    if k > 0 {
      WindowAt(text, maxChars, o, start + (maxChars - o), k - 1);
    }
  }

  ghost predicate LongEnough(windows: seq<string>, o: nat) {
    forall i :: 1 <= i < |windows| ==> |windows[i]| >= o
  }

  lemma WindowsLongEnough(text: string, maxChars: nat, o: nat)
    requires o < maxChars && text != ""
    ensures LongEnough(WindowsFrom(text, maxChars, o, 0), o)
  {
    hide WindowsFrom;
    var w := WindowsFrom(text, maxChars, o, 0);
    forall i | 1 <= i < |w|
      ensures |w[i]| >= o
    {
      WindowAt(text, maxChars, o, 0, i - 1);
      WindowAt(text, maxChars, o, 0, i);
    }
  }

  /** The windows up to `k`, overlaps dropped, are the text up to the end of window `k`. */
  lemma {:induction false} PrefixRebuilt(text: string, maxChars: nat, o: nat, k: nat)
    requires o < maxChars && text != "" && k < |WindowsFrom(text, maxChars, o, 0)|
    requires LongEnough(WindowsFrom(text, maxChars, o, 0), o)
    ensures WithoutOverlaps(WindowsFrom(text, maxChars, o, 0)[..k + 1], o)
            == text[..Min(StartOf(k, maxChars - o) + maxChars, |text|)]
    decreases k
  {
    hide WindowsFrom, WithoutOverlaps, LongEnough;
    var w := WindowsFrom(text, maxChars, o, 0);
    WindowAt(text, maxChars, o, 0, k);
    if k == 0 {
      FirstWindow(w, o);
    } else {
      WindowAt(text, maxChars, o, 0, k - 1);
      PrefixRebuilt(text, maxChars, o, k - 1);
      var t := StartOf(k - 1, maxChars - o);
      AppendedTail(text, t + maxChars, t + (maxChars - o), maxChars, o);
      OneMoreWindow(w, o, k);
    }
  }

  lemma FirstWindow(w: seq<string>, o: nat)
    requires w != [] && LongEnough(w, o)
    ensures WithoutOverlaps(w[..1], o) == w[0]
  {
    assert w[..1] == [w[0]];
  }

  lemma OneMoreWindow(w: seq<string>, o: nat, k: nat)
    requires LongEnough(w, o) && 1 <= k < |w|
    ensures WithoutOverlaps(w[..k + 1], o) == WithoutOverlaps(w[..k], o) + w[k][o..]
  {
    assert w[..k + 1][..k] == w[..k];
  }

  lemma AppendedTail(text: string, end: nat, s: nat, maxChars: nat, o: nat)
    requires s + o == end && end < |text| && o < maxChars
    ensures text[..end] + text[s..Min(s + maxChars, |text|)][o..] == text[..Min(s + maxChars, |text|)]
  {
  }

  /** Nothing is lost or repeated: the windows without their overlaps are the text. */
  lemma WindowsRebuildText(text: string, maxChars: nat, overlap: nat)
    requires maxChars > 0
    ensures var w := AllWindows(text, maxChars, overlap);
            && LongEnough(w, Overlap(maxChars, overlap))
            && WithoutOverlaps(w, Overlap(maxChars, overlap)) == text
  {
    if text != "" {
      var o := Overlap(maxChars, overlap);
      var w := WindowsFrom(text, maxChars, o, 0);
      WindowsLongEnough(text, maxChars, o);
      var k := |w| - 1;
      PrefixRebuilt(text, maxChars, o, k);
      WindowAt(text, maxChars, o, 0, k);
      hide WindowsFrom, WithoutOverlaps;
      assert w[..k + 1] == w;
      assert text[..|text|] == text;
    }
  }

  /** Every stretch of at most overlap + 1 characters lies whole in one window. */
  lemma {:induction false} StretchInOneWindow(text: string, maxChars: nat, o: nat, start: nat, p: nat, n: nat)
    returns (k: nat, s: nat)
    requires o < maxChars && start <= p && 0 < n <= o + 1 && p + n <= |text|
    ensures k < |WindowsFrom(text, maxChars, o, start)|
    ensures s <= p && p + n <= Min(s + maxChars, |text|)
    ensures WindowsFrom(text, maxChars, o, start)[k] == text[s..Min(s + maxChars, |text|)]
    decreases |text| - start
  {
    if p + n <= start + maxChars {
      k, s := 0, start;
    } else {
      var k';
      k', s := StretchInOneWindow(text, maxChars, o, start + (maxChars - o), p, n);
      k := k' + 1;
    }
  }

  lemma {:induction false} NotBlankKeeps(windows: seq<string>, k: nat)
    requires k < |windows| && !IsBlank(windows[k])
    ensures windows[k] in NotBlank(windows)
  {
    hide IsBlank;
    if k > 0 {
      NotBlankKeeps(windows[1..], k - 1);
    }
  }

  lemma StretchOccurs(text: string, s: nat, e: nat, p: nat, n: nat)
    requires s <= p && p + n <= e <= |text|
    ensures Contains(text[s..e], text[p..p + n])
  {
    var chunk, stretch, at := text[s..e], text[p..p + n], p - s;
    forall j | 0 <= j < n
      ensures chunk[at..at + n][j] == stretch[j]
    {
      assert chunk[at + j] == text[p + j];
    }
    assert chunk[at..at + n] == stretch;
    assert OccursAt(chunk, stretch, at);
  }

  lemma InkIsKept(text: string, s: nat, e: nat, i: nat)
    requires s <= i < e <= |text| && !IsWhitespace(text[i])
    ensures !IsBlank(text[s..e])
  {
    hide IsWhitespace, IsBlank;
    BlankIff(text[s..e]);
    assert text[s..e][i - s] == text[i];
  }

  /** Each visible character of the text, with its surroundings up to the overlap, is stored. */
  lemma VisibleTextIsStored(text: string, maxChars: nat, overlap: nat, p: nat, n: nat, i: nat) returns (chunk: string)
    requires maxChars > 0 && 0 < n <= Overlap(maxChars, overlap) + 1 && p + n <= |text|
    requires p <= i < p + n && !IsWhitespace(text[i])
    ensures chunk in Chunks(text, maxChars, overlap) && Contains(chunk, text[p..p + n])
  {
    hide WindowsFrom, NotBlank, IsBlank, IsWhitespace, Contains;
    var o := Overlap(maxChars, overlap);
    var k, s := StretchInOneWindow(text, maxChars, o, 0, p, n);
    var e := Min(s + maxChars, |text|);
    chunk := text[s..e];
    InkIsKept(text, s, e, i);
    NotBlankKeeps(WindowsFrom(text, maxChars, o, 0), k);
    StretchOccurs(text, s, e, p, n);
  }

  lemma {:induction false} NotBlankOnly(windows: seq<string>, chunk: string)
    requires chunk in NotBlank(windows)
    ensures chunk in windows && !IsBlank(chunk)
  {
    hide IsBlank;
    if !(windows[0] == chunk && !IsBlank(chunk)) {
      NotBlankOnly(windows[1..], chunk);
    }
  }

  /** A stored chunk is a visible stretch of the text, no longer than a window. */
  lemma StoredIsStretch(text: string, maxChars: nat, overlap: nat, chunk: string)
    requires chunk in Chunks(text, maxChars, overlap)
    ensures maxChars > 0 && 0 < |chunk| <= maxChars && !IsBlank(chunk) && Contains(text, chunk)
  {
    hide WindowsFrom, NotBlank, IsBlank;
    NothingKept();
    var w := AllWindows(text, maxChars, overlap);
    NotBlankOnly(w, chunk);
    var o := Overlap(maxChars, overlap);
    var k :| 0 <= k < |w| && w[k] == chunk;
    WindowAt(text, maxChars, o, 0, k);
    assert OccursAt(text, chunk, StartOf(k, maxChars - o));
  }
}
