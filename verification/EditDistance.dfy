/** The two-row edit distance that ranks slash-command suggestions. */
module EditDistance {
  import opened Text

  /** Drops the last character. */
  function Init(s: string): string
    requires s != ""
  {
    s[..|s| - 1]
  }

  function Last(s: string): char
    requires s != ""
  {
    s[|s| - 1]
  }

  /** The recursive specification: how cheaply `a` turns into `b`. */
  function Distance(a: string, b: string): nat
    decreases |a| + |b|
  {
    if a == "" then |b|
    else if b == "" then |a|
    else
      Min(Min(Distance(a, Init(b)) + 1, Distance(Init(a), b) + 1),
          Distance(Init(a), Init(b)) + if Last(a) != Last(b) then 1 else 0)
  }

  // --- Independent reference: sequences of single-character edits ---

  datatype Edit =
    | Insert(at: nat, c: char)
    | Delete(at: nat)
    | Substitute(at: nat, c: char)

  predicate Applicable(e: Edit, s: string) {
    match e
    case Insert(at, _) => at <= |s|
    case Delete(at) => at < |s|
    case Substitute(at, _) => at < |s|
  }

  function Apply(e: Edit, s: string): string
    requires Applicable(e, s)
  {
    match e
    case Insert(at, c) => s[..at] + [c] + s[at..]
    case Delete(at) => s[..at] + s[at + 1..]
    case Substitute(at, c) => s[..at] + [c] + s[at + 1..]
  }

  /** `script` is a list of edits that turns `a` into `b`, one after the other. */
  predicate Turns(script: seq<Edit>, a: string, b: string) {
    if script == [] then a == b
    else Applicable(script[0], a) && Turns(script[1..], Apply(script[0], a), b)
  }

  lemma {:induction false} TurnsConcat(s: seq<Edit>, t: seq<Edit>, a: string, b: string, c: string)
    requires Turns(s, a, b) && Turns(t, b, c)
    ensures Turns(s + t, a, c)
  {
    hide Apply, Applicable;
    if s == [] {
      assert s + t == t;
    } else {
      TurnsConcat(s[1..], t, Apply(s[0], a), b, c);
      assert (s + t)[1..] == s[1..] + t;
    }
  }

  lemma ApplyAppend(e: Edit, a: string, tail: string)
    requires Applicable(e, a)
    ensures Applicable(e, a + tail) && Apply(e, a + tail) == Apply(e, a) + tail
  {
    match e
    case Insert(at, c) =>
      assert (a + tail)[at..] == a[at..] + tail && (a + tail)[..at] == a[..at];
    case Delete(at) =>
      assert (a + tail)[at + 1..] == a[at + 1..] + tail && (a + tail)[..at] == a[..at];
    case Substitute(at, c) =>
      assert (a + tail)[at + 1..] == a[at + 1..] + tail && (a + tail)[..at] == a[..at];
  }

  /** A script never notices characters added behind the string it works on. */
  lemma {:induction false} TurnsAppend(s: seq<Edit>, a: string, b: string, tail: string)
    requires Turns(s, a, b)
    ensures Turns(s, a + tail, b + tail)
  {
    hide Apply, Applicable;
    if s != [] {
      ApplyAppend(s[0], a, tail);
      TurnsAppend(s[1..], Apply(s[0], a), b, tail);
    }
  }

  lemma SingleEdit(e: Edit, a: string)
    requires Applicable(e, a)
    ensures Turns([e], a, Apply(e, a))
  {
    assert [e][1..] == [];
  }

  /** A script exactly as long as the distance exists. */
  lemma {:induction false} CheapestScript(a: string, b: string) returns (script: seq<Edit>)
    ensures Turns(script, a, b) && |script| == Distance(a, b)
    decreases |a| + |b|
  {
    if a == "" && b == "" {
      script := [];
    } else if a == "" || (b != "" && Distance(a, b) == Distance(a, Init(b)) + 1) {
      script := ThenInsert(a, b);
    } else if b == "" || Distance(a, b) == Distance(Init(a), b) + 1 {
      script := DeleteFirst(a, b);
    } else {
      script := ThenSubstitute(a, b);
    }
  }

  lemma InitLast(s: string)
    requires s != ""
    ensures Init(s) + [Last(s)] == s
  {
  }

  lemma GrowTarget(s: seq<Edit>, a: string, b: string, y: char) returns (script: seq<Edit>)
    requires Turns(s, a, b)
    ensures Turns(script, a, b + [y]) && |script| == |s| + 1
  {
    var e := Insert(|b|, y);
    SingleEdit(e, b);
    assert Apply(e, b) == b + [y];
    TurnsConcat(s, [e], a, b, b + [y]);
    script := s + [e];
  }

  lemma {:induction false} ThenInsert(a: string, b: string) returns (script: seq<Edit>)
    requires b != ""
    ensures Turns(script, a, b) && |script| == Distance(a, Init(b)) + 1
    decreases |a| + |b|, 0
  {
    InitLast(b);
    var s := CheapestScript(a, Init(b));
    script := GrowTarget(s, a, Init(b), Last(b));
  }

  lemma {:induction false} DeleteFirst(a: string, b: string) returns (script: seq<Edit>)
    requires a != ""
    ensures Turns(script, a, b) && |script| == Distance(Init(a), b) + 1
    decreases |a| + |b|, 0
  {
    var s := CheapestScript(Init(a), b);
    var e := Delete(|a| - 1);
    SingleEdit(e, a);
    assert Apply(e, a) == Init(a);
    TurnsConcat([e], s, a, Init(a), b);
    script := [e] + s;
  }

  /** Both strings grow by one character; differing ones cost one substitution. */
  lemma ExtendByOne(s: seq<Edit>, a: string, b: string, x: char, y: char) returns (script: seq<Edit>)
    requires Turns(s, a, b)
    ensures Turns(script, a + [x], b + [y])
    ensures |script| == |s| + if x != y then 1 else 0
  {
    TurnsAppend(s, a, b, [x]);
    script := s;
    if x != y {
      var e := Substitute(|b|, y);
      SingleEdit(e, b + [x]);
      assert Apply(e, b + [x]) == b + [y];
      TurnsConcat(s, [e], a + [x], b + [x], b + [y]);
      script := s + [e];
    }
  }

  lemma {:induction false} ThenSubstitute(a: string, b: string) returns (script: seq<Edit>)
    requires a != "" && b != ""
    ensures Turns(script, a, b)
    ensures |script| == Distance(Init(a), Init(b)) + if Last(a) != Last(b) then 1 else 0
    decreases |a| + |b|, 0
  {
    InitLast(a);
    InitLast(b);
    var s := CheapestScript(Init(a), Init(b));
    script := ExtendByOne(s, Init(a), Init(b), Last(a), Last(b));
  }

  lemma {:induction false} LengthBounds(a: string, b: string)
    ensures |a| <= |b| + Distance(a, b) && |b| <= |a| + Distance(a, b)
    ensures Distance(a, b) <= |a| + |b|
    decreases |a| + |b|
  {
    if a != "" && b != "" {
      LengthBounds(a, Init(b));
      LengthBounds(Init(a), b);
      LengthBounds(Init(a), Init(b));
    }
  }

  lemma {:induction false} Symmetric(a: string, b: string)
    ensures Distance(a, b) == Distance(b, a)
    decreases |a| + |b|
  {
    if a != "" && b != "" {
      Symmetric(a, Init(b));
      Symmetric(Init(a), b);
      Symmetric(Init(a), Init(b));
    }
  }

  lemma {:induction false} ZeroIffEqual(a: string, b: string)
    ensures Distance(a, b) == 0 <==> a == b
    decreases |a| + |b|
  {
    if a != "" && b != "" {
      ZeroIffEqual(Init(a), Init(b));
      assert a == Init(a) + [Last(a)] && b == Init(b) + [Last(b)];
    }
  }

  lemma {:induction false} Triangle(a: string, b: string, c: string)
    ensures Distance(a, c) <= Distance(a, b) + Distance(b, c)
    decreases |a| + |b| + |c|
  {
    LengthBounds(a, b);
    LengthBounds(b, c);
    LengthBounds(a, c);
    if a != "" && b != "" && c != "" {
      Triangle(Init(a), b, c);
      Triangle(a, b, Init(c));
      Triangle(a, Init(b), c);
      Triangle(a, Init(b), Init(c));
      Triangle(Init(a), Init(b), c);
      Triangle(Init(a), Init(b), Init(c));
    }
  }

  lemma {:induction false} CommonSuffix(a: string, b: string, tail: string)
    ensures Distance(a + tail, b + tail) <= Distance(a, b)
  {
    if tail == "" {
      assert a + tail == a && b + tail == b;
    } else {
      CommonSuffix(a, b, Init(tail));
      assert Init(a + tail) == a + Init(tail) && Init(b + tail) == b + Init(tail);
      assert Last(a + tail) == Last(b + tail);
    }
  }

  lemma LastCharacterCostsAtMostOne(head: string, c: char, d: char)
    ensures Distance(head, head + [c]) <= 1
    ensures Distance(head + [c], head) <= 1
    ensures Distance(head + [c], head + [d]) <= 1
  {
    ZeroIffEqual(head, head);
    assert Init(head + [c]) == head && Init(head + [d]) == head;
    Symmetric(head, head + [c]);
  }

  /** The same, with an untouched tail behind the edited character. */
  lemma InnerCharacterCostsAtMostOne(head: string, c: char, d: char, tail: string)
    ensures Distance(head + tail, head + [c] + tail) <= 1
    ensures Distance(head + [c] + tail, head + tail) <= 1
    ensures Distance(head + [c] + tail, head + [d] + tail) <= 1
  {
    LastCharacterCostsAtMostOne(head, c, d);
    CommonSuffix(head, head + [c], tail);
    CommonSuffix(head + [c], head, tail);
    CommonSuffix(head + [c], head + [d], tail);
  }

  lemma EditShape(e: Edit, s: string) returns (head: string, c: char, d: char, tail: string)
    requires Applicable(e, s)
    ensures e.Insert? ==> s == head + tail && Apply(e, s) == head + [c] + tail
    ensures e.Delete? ==> s == head + [c] + tail && Apply(e, s) == head + tail
    ensures e.Substitute? ==> s == head + [c] + tail && Apply(e, s) == head + [d] + tail
  {
    head := s[..e.at];
    match e
    case Insert(at, x) => c, d, tail := x, x, s[at..];
    case Delete(at) => c, d, tail := s[at], s[at], s[at + 1..];
    case Substitute(at, x) => c, d, tail := s[at], x, s[at + 1..];
  }

  lemma OneEditCostsAtMostOne(e: Edit, s: string)
    requires Applicable(e, s)
    ensures Distance(s, Apply(e, s)) <= 1
  {
    var head, c, d, tail := EditShape(e, s);
    InnerCharacterCostsAtMostOne(head, c, d, tail);
  }

  /** No script is cheaper than the distance. */
  lemma {:induction false} EveryScriptCostsDistance(script: seq<Edit>, a: string, b: string)
    requires Turns(script, a, b)
    ensures Distance(a, b) <= |script|
  {
    if script == [] {
      ZeroIffEqual(a, b);
    } else {
      var next := Apply(script[0], a);
      EveryScriptCostsDistance(script[1..], next, b);
      OneEditCostsAtMostOne(script[0], a);
      Triangle(a, next, b);
    }
  }

  /** Distance is the length of a shortest edit script. */
  lemma DistanceIsMinimal(a: string, b: string)
    ensures exists script :: Turns(script, a, b) && |script| == Distance(a, b)
    ensures forall script :: Turns(script, a, b) ==> Distance(a, b) <= |script|
  {
    var best := CheapestScript(a, b);
    forall script | Turns(script, a, b)
      ensures Distance(a, b) <= |script|
    {
      EveryScriptCostsDistance(script, a, b);
    }
  }

  /** Column `j` of row `i` of the table. */
  ghost function Cell(left: string, right: string, i: nat, j: nat): nat
    requires i <= |left| && j <= |right|
  {
    Distance(left[..i], right[..j])
  }

  /** One cell of the table, from the three cells beside it. */
  lemma CellStep(left: string, right: string, i: nat, j: nat)
    requires i < |left| && j < |right|
    ensures Cell(left, right, i + 1, j + 1) ==
            Min(Min(Cell(left, right, i + 1, j) + 1, Cell(left, right, i, j + 1) + 1),
                Cell(left, right, i, j) + if left[i] != right[j] then 1 else 0)
  {
    assert Init(left[..i + 1]) == left[..i] && Init(right[..j + 1]) == right[..j];
  }

  lemma CellEdges(left: string, right: string, i: nat, j: nat)
    requires i <= |left| && j <= |right|
    ensures Cell(left, right, i, 0) == i && Cell(left, right, 0, j) == j
    ensures Cell(left, right, |left|, |right|) == Distance(left, right)
  {
    assert left[..0] == "" && right[..0] == "";
    assert left[..|left|] == left && right[..|right|] == right;
  }

  /** The first `count` cells of row `i`. */
  ghost predicate IsRow(row: array<nat>, left: string, right: string, i: nat, count: nat)
    requires i <= |left| && count <= |right| + 1
    reads row
  {
    count <= row.Length && forall j :: 0 <= j < count ==> row[j] == Cell(left, right, i, j)
  }

  /** The source's inner loop: one row from the row above. */
  method FillRow(left: string, right: string, i: nat, previous: array<nat>, current: array<nat>)
    requires i < |left| && previous != current
    requires previous.Length == current.Length == |right| + 1
    requires IsRow(previous, left, right, i, |right| + 1)
    modifies current
    ensures IsRow(current, left, right, i + 1, |right| + 1)
  {
    CellEdges(left, right, i + 1, 0);
    current[0] := i + 1;
    for j := 0 to |right|
      invariant IsRow(current, left, right, i + 1, j + 1)
    {
      var substitutionCost := if left[i] != right[j] then 1 else 0;
      CellStep(left, right, i, j);
      current[j + 1] := Min(Min(current[j] + 1, previous[j + 1] + 1), previous[j] + substitutionCost);
    }
  }

  /** The source's computation, early returns included. */
  method Levenshtein(left: string, right: string) returns (d: nat)
    ensures d == Distance(left, right)
  {
    if left == right {
      ZeroIffEqual(left, right);
      return 0;
    }
    if left == "" {
      return |right|;
    }
    if right == "" {
      return |left|;
    }
    var previous := new nat[|right| + 1](k => k);
    var current := new nat[|right| + 1](k => 0);
    forall j | 0 <= j <= |right| ensures Cell(left, right, 0, j) == j {
      CellEdges(left, right, 0, j);
    }
    for i := 0 to |left|
      invariant IsRow(previous, left, right, i, |right| + 1)
    {
      FillRow(left, right, i, previous, current);
      forall k | 0 <= k < previous.Length {
        previous[k] := current[k];
      }
    }
    CellEdges(left, right, 0, 0);
    d := previous[|right|];
  }
}
