/** Skills found under several roots: the listing that marks shadowed ones, and the lookup by name. */
module SkillLookup {
  import opened Text
  import opened Sorting
  import opened StreamTypes

  datatype Source =
    | ProjectClaw | ProjectCodex | ProjectClaude | UserClawConfigHome
    | UserCodexHome | UserClaw | UserCodex | UserClaude

  datatype Origin = SkillsDir | LegacyCommandsDir

  /** A document on disk, by what its front matter says. */
  datatype Document = Unreadable | Readable(name: Option<string>, description: Option<string>)

  /** A directory with its SKILL.md, if it has one, or a file. */
  datatype DirEntry =
    | BrokenEntry
    | Directory(name: string, skill: Option<Document>)
    | File(stem: string, extension: Option<string>, document: Document)

  /** A root, with what reading its directory gives. */
  datatype Root = Root(path: string, source: Source, origin: Origin, entries: Option<seq<DirEntry>>)

  datatype IoError = ReadFailed | InvalidInput | NotFound(requested: string)

  datatype Summary = Summary(
    name: string, description: Option<string>, source: Source, shadowedBy: Option<Source>,
    origin: Origin, path: string, dirName: Option<string>)

  /** A skill whose front matter names it otherwise than its directory. */
  datatype Drift = Drift(dirName: string, frontmatterName: string, path: string)

  /** What the lookup keeps of a skill: its name and its document. */
  datatype Candidate = Candidate(name: string, path: string)

  // --- One entry ---

  function FileName(stem: string, extension: Option<string>): string {
    if extension.Some? then stem + "." + extension.value else stem
  }

  predicate IsMarkdown(extension: Option<string>) {
    extension.Some? && EqIgnoreCase(extension.value, "md")
  }

  /** A skill definition: its entry, its document and its name. */
  datatype Definition = Definition(
    name: string, description: Option<string>, entryPath: string, documentPath: string, dirName: Option<string>)

  datatype Reading = Skipped | Failed | Defined(definition: Definition)

  function Define(d: Document, fallback: string, entryPath: string, documentPath: string, dirName: Option<string>): Reading {
    if d.Unreadable? then Failed
    else
      Defined(Definition(if d.name.Some? then d.name.value else fallback, d.description,
                         entryPath, documentPath, dirName))
  }

  /** In a commands directory a skill kept as a directory is named after its document, `SKILL`. */
  function ReadEntry(root: Root, e: DirEntry): Reading {
    match e
    case BrokenEntry => Failed
    case Directory(name, skill) =>
      var dir := root.path + "/" + name;
      var document := dir + "/SKILL.md";
      if skill.None? then Skipped
      else if root.origin.SkillsDir? then Define(skill.value, name, dir, document, Some(name))
      else Define(skill.value, "SKILL", document, document, None)
    case File(stem, extension, d) =>
      var path := root.path + "/" + FileName(stem, extension);
      if root.origin.SkillsDir? || !IsMarkdown(extension) then Skipped
      else Define(d, stem, path, path, None)
  }

  function SummaryOf(root: Root, d: Definition): Summary {
    Summary(d.name, d.description, root.source, None, root.origin, d.entryPath, d.dirName)
  }

  function CandidateOf(d: Definition): Candidate {
    Candidate(d.name, d.documentPath)
  }

  /** A skill kept as a directory without a name of its own is named after it, and does not drift. */
  function Drifted(d: Definition): seq<Drift> {
    if d.dirName.Some? && d.name != d.dirName.value then [Drift(d.dirName.value, d.name, d.entryPath)] else []
  }

  // --- One root ---

  /** The definitions of some entries, in directory order; nothing if one cannot be read. */
  function Definitions(root: Root, entries: seq<DirEntry>): Option<seq<Definition>> {
    if entries == [] then Some([])
    else
      var init := Definitions(root, entries[..|entries| - 1]);
      var last := ReadEntry(root, entries[|entries| - 1]);
      if init.None? || last.Failed? then None
      else if last.Skipped? then init
      else Some(init.value + [last.definition])
  }

  lemma {:induction false} FailureStays(root: Root, entries: seq<DirEntry>, k: nat)
    requires k <= |entries| && Definitions(root, entries[..k]).None?
    ensures Definitions(root, entries).None?
    decreases |entries|
  {
    if k < |entries| {
      var init := entries[..|entries| - 1];
      assert init[..k] == entries[..k];
      FailureStays(root, init, k);
    } else {
      assert entries[..k] == entries;
    }
  }

  /** The drifts of some definitions, in directory order. */
  function Drifts(s: seq<Definition>): seq<Drift> {
    if s == [] then [] else Drifts(s[..|s| - 1]) + Drifted(s[|s| - 1])
  }

  predicate ByName(a: Definition, b: Definition) {
    StringLe(a.name, b.name)
  }

  predicate SummaryByName(a: Summary, b: Summary) {
    StringLe(a.name, b.name)
  }

  predicate CandidateByName(a: Candidate, b: Candidate) {
    StringLe(a.name, b.name)
  }

  function Summaries(root: Root, s: seq<Definition>): (r: seq<Summary>)
    ensures |r| == |s| && forall i :: 0 <= i < |s| ==> r[i] == SummaryOf(root, s[i])
  {
    if s == [] then [] else [SummaryOf(root, s[0])] + Summaries(root, s[1..])
  }

  function Candidates(s: seq<Definition>): (r: seq<Candidate>)
    ensures |r| == |s| && forall i :: 0 <= i < |s| ==> r[i] == CandidateOf(s[i])
  {
    if s == [] then [] else [CandidateOf(s[0])] + Candidates(s[1..])
  }

  lemma {:induction false} InsertSummaries(root: Root, d: Definition, s: seq<Definition>)
    ensures Insert(SummaryOf(root, d), Summaries(root, s), SummaryByName) == Summaries(root, Insert(d, s, ByName))
  {
    hide StringLe;
    if s == [] {
    } else {
      assert Summaries(root, s)[1..] == Summaries(root, s[1..]);
      if !ByName(d, s[0]) {
        InsertSummaries(root, d, s[1..]);
        var r := Insert(d, s, ByName);
        assert r[0] == s[0] && r[1..] == Insert(d, s[1..], ByName);
      } else {
        assert ([d] + s)[1..] == s;
      }
    }
  }

  lemma {:induction false} SortSummaries(root: Root, s: seq<Definition>)
    ensures Sort(Summaries(root, s), SummaryByName) == Summaries(root, Sort(s, ByName))
  {
    hide StringLe;
    if s != [] {
      SortSummaries(root, s[1..]);
      assert Summaries(root, s)[1..] == Summaries(root, s[1..]);
      InsertSummaries(root, s[0], Sort(s[1..], ByName));
    }
  }

  lemma {:induction false} InsertCandidates(d: Definition, s: seq<Definition>)
    ensures Insert(CandidateOf(d), Candidates(s), CandidateByName) == Candidates(Insert(d, s, ByName))
  {
    hide StringLe;
    if s == [] {
    } else {
      assert Candidates(s)[1..] == Candidates(s[1..]);
      if !ByName(d, s[0]) {
        InsertCandidates(d, s[1..]);
        var r := Insert(d, s, ByName);
        assert r[0] == s[0] && r[1..] == Insert(d, s[1..], ByName);
      } else {
        assert ([d] + s)[1..] == s;
      }
    }
  }

  lemma {:induction false} SortCandidates(s: seq<Definition>)
    ensures Sort(Candidates(s), CandidateByName) == Candidates(Sort(s, ByName))
  {
    hide StringLe;
    if s != [] {
      SortCandidates(s[1..]);
      assert Candidates(s)[1..] == Candidates(s[1..]);
      InsertCandidates(s[0], Sort(s[1..], ByName));
    }
  }

  // --- All roots ---

  /** A definition with the root it is under. */
  datatype Placed = Placed(root: Root, definition: Definition)

  function PlaceAll(root: Root, s: seq<Definition>): (r: seq<Placed>)
    ensures |r| == |s| && forall i :: 0 <= i < |s| ==> r[i] == Placed(root, s[i])
  {
    if s == [] then [] else [Placed(root, s[0])] + PlaceAll(root, s[1..])
  }

  predicate RootReadable(root: Root) {
    root.entries.Some? && Definitions(root, root.entries.value).Some?
  }

  /** The definitions of a root in the order of their names. */
  function InOrder(root: Root): seq<Definition>
    requires RootReadable(root)
  {
    Sort(Definitions(root, root.entries.value).value, ByName)
  }

  function RootDrifts(root: Root): seq<Drift>
    requires RootReadable(root)
  {
    Drifts(Definitions(root, root.entries.value).value)
  }

  predicate AllReadable(roots: seq<Root>) {
    forall i :: 0 <= i < |roots| ==> RootReadable(roots[i])
  }

  /** Every definition, the roots one after the other. */
  function Everything(roots: seq<Root>): seq<Placed>
    requires AllReadable(roots)
  {
    if roots == [] then []
    else
      var last := roots[|roots| - 1];
      Everything(roots[..|roots| - 1]) + PlaceAll(last, InOrder(last))
  }

  function AllDrifts(roots: seq<Root>): seq<Drift>
    requires AllReadable(roots)
  {
    if roots == [] then [] else AllDrifts(roots[..|roots| - 1]) + RootDrifts(roots[|roots| - 1])
  }

  ghost predicate NoKey(all: seq<Placed>, key: string) {
    forall j :: 0 <= j < |all| ==> KeyOf(all[j]) != key
  }

  /** The first definition with a name, up to case. */
  function First(all: seq<Placed>, key: string): (r: Option<nat>)
    ensures r.Some? ==> r.value < |all|
  {
    if all == [] then None
    else
      match First(all[..|all| - 1], key)
      case Some(k) => Some(k)
      case None => if KeyOf(all[|all| - 1]) == key then Some(|all| - 1) else None
  }

  lemma {:induction false} FirstCorrect(all: seq<Placed>, key: string)
    ensures var r := First(all, key);
            && (r.Some? ==> KeyOf(all[r.value]) == key && NoKey(all[..r.value], key))
            && (r.None? ==> NoKey(all, key))
  {
    hide KeyOf;
    if all != [] {
      var init := all[..|all| - 1];
      FirstCorrect(init, key);
      var r := First(init, key);
      if r.Some? {
        assert all[..r.value] == init[..r.value];
      }
    }
  }

  function KeyOf(p: Placed): string {
    Lower(p.definition.name)
  }

  lemma NoKeyAt(all: seq<Placed>, n: nat, j: nat, key: string)
    requires j < n <= |all| && NoKey(all[..n], key)
    ensures KeyOf(all[j]) != key
  {
    assert all[..n][j] == all[j];
  }

  lemma {:induction false} FirstIs(all: seq<Placed>, key: string, k: nat)
    requires k < |all| && KeyOf(all[k]) == key && NoKey(all[..k], key)
    ensures First(all, key) == Some(k)
  {
    FirstCorrect(all, key);
    hide KeyOf, First;
    var r := First(all, key);
    if r.Some? && r.value < k {
      NoKeyAt(all, k, r.value, key);
    } else if r.Some? && k < r.value {
      NoKeyAt(all, r.value, k, key);
    }
  }

  lemma {:induction false} FirstIsNone(all: seq<Placed>, key: string)
    requires NoKey(all, key)
    ensures First(all, key).None?
  {
    FirstCorrect(all, key);
    hide KeyOf, First;
  }

  lemma NoKeyConcat(a: seq<Placed>, b: seq<Placed>, key: string)
    requires NoKey(a, key) && NoKey(b, key)
    ensures NoKey(a + b, key)
  {
    hide KeyOf;
  }

  lemma {:induction false} FirstOfConcat(a: seq<Placed>, b: seq<Placed>, key: string)
    ensures First(a, key).Some? ==> First(a + b, key) == First(a, key)
    ensures First(a, key).None? ==>
              First(a + b, key) == if First(b, key).Some? then Some(|a| + First(b, key).value) else None
  {
    FirstCorrect(a, key);
    FirstCorrect(b, key);
    hide KeyOf, First, NoKey;
    var x, y := First(a, key), First(b, key);
    if x.Some? {
      assert (a + b)[..x.value] == a[..x.value];
      FirstIs(a + b, key, x.value);
    } else if y.Some? {
      NoKeyConcat(a, b[..y.value], key);
      assert (a + b)[..|a| + y.value] == a + b[..y.value];
      FirstIs(a + b, key, |a| + y.value);
    } else {
      NoKeyConcat(a, b, key);
      FirstIsNone(a + b, key);
    }
  }

  lemma {:induction false} PresentKey(all: seq<Placed>, k: nat)
    requires k < |all|
    ensures First(all, KeyOf(all[k])).Some? && First(all, KeyOf(all[k])).value <= k
  {
    var key := KeyOf(all[k]);
    FirstCorrect(all, key);
    hide KeyOf, First;
    var r := First(all, key);
    if r.Some? && k < r.value {
      NoKeyAt(all, r.value, k, key);
    }
  }

  /** The first definition of each name is active; the others are shadowed by its source. */
  function Listed(all: seq<Placed>, k: nat): Summary
    requires k < |all|
  {
    PresentKey(all, k);
    var winner := First(all, KeyOf(all[k])).value;
    SummaryOf(all[k].root, all[k].definition).(shadowedBy := if winner == k then None else Some(all[winner].root.source))
  }

  // --- The listing ---

  method ReadRoot(root: Root) returns (r: Result<seq<Summary>, IoError>, drift: seq<Drift>)
    ensures r.Ok? <==> RootReadable(root)
    ensures r.Ok? ==> r.value == Summaries(root, InOrder(root)) && drift == RootDrifts(root)
    ensures r.Err? ==> r.error == ReadFailed
  {
    hide SummaryOf, ReadEntry, Summaries, Drifts, Drifted;
    NothingDefined(root);
    drift := [];
    if root.entries.None? {
      return Err(ReadFailed), drift;
    }
    var entries := root.entries.value;
    var skills: seq<Summary> := [];
    for i := 0 to |entries|
      invariant Definitions(root, entries[..i]).Some?
      invariant skills == Summaries(root, Definitions(root, entries[..i]).value)
      invariant drift == Drifts(Definitions(root, entries[..i]).value)
    {
      assert entries[..i + 1][..i] == entries[..i];
      var reading := ReadEntry(root, entries[i]);
      if reading.Failed? {
        FailureStays(root, entries, i + 1);
        return Err(ReadFailed), drift;
      }
      if reading.Defined? {
        var d := reading.definition;
        OneMoreDefinition(root, Definitions(root, entries[..i]).value, d);
        DriftedIs(d);
        if d.dirName.Some? && d.name != d.dirName.value {
          drift := drift + [Drift(d.dirName.value, d.name, d.entryPath)];
        }
        skills := skills + [SummaryOf(root, d)];
      }
    }
    assert entries[..|entries|] == entries;
    SortSummaries(root, Definitions(root, entries).value);
    r := Ok(Sort(skills, SummaryByName));
  }

  lemma NothingDefined(root: Root)
    ensures Summaries(root, []) == [] && Drifts([]) == []
  {
  }

  lemma DriftedIs(d: Definition)
    ensures Drifted(d) == if d.dirName.Some? && d.name != d.dirName.value then [Drift(d.dirName.value, d.name, d.entryPath)] else []
  {
  }

  lemma OneMoreDefinition(root: Root, s: seq<Definition>, d: Definition)
    ensures Summaries(root, s + [d]) == Summaries(root, s) + [SummaryOf(root, d)]
    ensures Drifts(s + [d]) == Drifts(s) + Drifted(d)
  {
    hide Summaries, Drifted;
    var more := s + [d];
    assert more[..|more| - 1] == s && more[|more| - 1] == d;
    assert Summaries(root, more) == Summaries(root, s) + [SummaryOf(root, d)];
  }

  ghost predicate IsListing(all: seq<Placed>, skills: seq<Summary>) {
    |skills| == |all| && forall k :: 0 <= k < |all| ==> skills[k] == Listed(all, k)
  }

  ghost predicate IsActive(all: seq<Placed>, active: map<string, Source>) {
    forall key ::
      && (key in active <==> First(all, key).Some?)
      && (key in active ==> active[key] == all[First(all, key).value].root.source)
  }

  lemma {:induction false} FirstOfOne(p: Placed, key: string)
    ensures First([p], key) == if KeyOf(p) == key then Some(0) else None
  {
    assert [p][..0] == [];
    if KeyOf(p) == key {
      FirstIs([p], key, 0);
    } else {
      FirstIsNone([p], key);
    }
  }

  /** Takes one more skill into the listing. */
  lemma {:induction false} ListOne(all: seq<Placed>, p: Placed, skills: seq<Summary>, active: map<string, Source>)
    requires IsListing(all, skills) && IsActive(all, active)
    ensures var key := KeyOf(p);
            var skill := SummaryOf(p.root, p.definition);
            && (key in active ==>
                  && IsListing(all + [p], skills + [skill.(shadowedBy := Some(active[key]))])
                  && IsActive(all + [p], active))
            && (key !in active ==>
                  && IsListing(all + [p], skills + [skill])
                  && IsActive(all + [p], active[key := skill.source]))
  {
    hide First, KeyOf;
    var more := all + [p];
    forall key
      ensures First(all, key).Some? ==> First(more, key) == First(all, key)
      ensures First(all, key).None? ==> First(more, key) == if KeyOf(p) == key then Some(|all|) else None
    {
      FirstOfConcat(all, [p], key);
      FirstOfOne(p, key);
    }
    forall k | 0 <= k < |all|
      ensures Listed(more, k) == Listed(all, k)
    {
      PresentKey(all, k);
    }
  }

  /** Marks and appends the skills of one root, in order. */
  method ListRoot(root: Root, defs: seq<Definition>, found: seq<Summary>, ghost all: seq<Placed>,
                  skills: seq<Summary>, active: map<string, Source>)
    returns (skills': seq<Summary>, active': map<string, Source>)
    requires found == Summaries(root, defs) && IsListing(all, skills) && IsActive(all, active)
    ensures IsListing(all + PlaceAll(root, defs), skills') && IsActive(all + PlaceAll(root, defs), active')
  {
    hide IsListing, IsActive, First, Listed, PlaceAll, Summaries, Lower;
    skills', active' := skills, active;
    ghost var placed := PlaceAll(root, defs);
    assert all + placed[..0] == all;
    for i := 0 to |found|
      invariant IsListing(all + placed[..i], skills') && IsActive(all + placed[..i], active')
    {
      var skill := found[i];
      assert all + placed[..i + 1] == (all + placed[..i]) + [placed[i]];
      ListOne(all + placed[..i], placed[i], skills', active');
      var key := Lower(skill.name);
      if key in active' {
        skills' := skills' + [skill.(shadowedBy := Some(active'[key]))];
      } else {
        active' := active'[key := skill.source];
        skills' := skills' + [skill];
      }
    }
    assert placed[..|found|] == placed;
  }

  method LoadSkillsFromRoots(roots: seq<Root>) returns (r: Result<seq<Summary>, IoError>, drift: seq<Drift>)
    ensures r.Ok? <==> AllReadable(roots)
    ensures r.Ok? ==> IsListing(Everything(roots), r.value) && drift == AllDrifts(roots)
    ensures r.Err? ==> r.error == ReadFailed
  {
    hide IsListing, IsActive, RootReadable, Summaries, InOrder, PlaceAll, RootDrifts;
    drift := [];
    var skills: seq<Summary> := [];
    var active: map<string, Source> := map[];
    NothingListed();
    for i := 0 to |roots|
      invariant AllReadable(roots[..i]) && drift == AllDrifts(roots[..i])
      invariant IsListing(Everything(roots[..i]), skills) && IsActive(Everything(roots[..i]), active)
    {
      var found, drifted := ReadRoot(roots[i]);
      if found.Err? {
        return Err(ReadFailed), drift;
      }
      assert roots[..i + 1][..i] == roots[..i];
      drift := drift + drifted;
      skills, active := ListRoot(roots[i], InOrder(roots[i]), found.value, Everything(roots[..i]), skills, active);
    }
    assert roots[..|roots|] == roots;
    r := Ok(skills);
  }

  lemma NothingListed()
    ensures IsListing([], []) && IsActive([], map[])
  {
  }

  // --- The lookup ---

  /** The name asked for, without surrounding space and leading slashes and dollars. */
  function Requested(skill: string): string {
    TrimStartMatches(TrimStartMatches(Trim(skill), '/'), '$')
  }

  /** How many roots are read before one that cannot be. */
  function ReadablePrefix(roots: seq<Root>): (n: nat)
    ensures n <= |roots|
  {
    if roots == [] then 0
    else
      var n := ReadablePrefix(roots[..|roots| - 1]);
      if n == |roots| - 1 && RootReadable(roots[n]) then n + 1 else n
  }

  lemma {:induction false} PrefixReadable(roots: seq<Root>)
    ensures var n := ReadablePrefix(roots);
            AllReadable(roots[..n]) && (n < |roots| ==> !RootReadable(roots[n]))
  {
    hide RootReadable;
    if roots != [] {
      var init := roots[..|roots| - 1];
      PrefixReadable(init);
      var n := ReadablePrefix(init);
      assert init[..n] == roots[..n];
    }
  }

  /** The first definition of the name wins, unless a root before it cannot be read. */
  function Resolution(roots: seq<Root>, skill: string): Result<string, IoError> {
    PrefixReadable(roots);
    var requested := Requested(skill);
    var n := ReadablePrefix(roots);
    var all := Everything(roots[..n]);
    if requested == "" then Err(InvalidInput)
    else
      match First(all, Lower(requested))
      case Some(k) => Ok(all[k].definition.documentPath)
      case None => if n < |roots| then Err(ReadFailed) else Err(NotFound(requested))
  }

  method ReadCandidates(root: Root) returns (r: Result<seq<Candidate>, IoError>)
    ensures r.Ok? <==> RootReadable(root)
    ensures r.Ok? ==> r.value == Candidates(InOrder(root))
    ensures r.Err? ==> r.error == ReadFailed
  {
    hide CandidateOf, ReadEntry;
    if root.entries.None? {
      return Err(ReadFailed);
    }
    var entries := root.entries.value;
    var found: seq<Candidate> := [];
    for i := 0 to |entries|
      invariant Definitions(root, entries[..i]).Some?
      invariant found == Candidates(Definitions(root, entries[..i]).value)
    {
      assert entries[..i + 1][..i] == entries[..i];
      var reading := ReadEntry(root, entries[i]);
      if reading.Failed? {
        FailureStays(root, entries, i + 1);
        return Err(ReadFailed);
      }
      if reading.Defined? {
        found := found + [CandidateOf(reading.definition)];
      }
    }
    assert entries[..|entries|] == entries;
    SortCandidates(Definitions(root, entries).value);
    r := Ok(Sort(found, CandidateByName));
  }

  method FindCandidate(root: Root, defs: seq<Definition>, found: seq<Candidate>, requested: string)
    returns (path: Option<string>)
    requires found == Candidates(defs)
    ensures var k := First(PlaceAll(root, defs), Lower(requested));
            path == if k.Some? then Some(defs[k.value].documentPath) else None
  {
    hide First, Lower, EqIgnoreCase, NoKey, Candidates, PlaceAll;
    ghost var placed := PlaceAll(root, defs);
    EmptyNoKey(placed, Lower(requested));
    for i := 0 to |found|
      invariant NoKey(placed[..i], Lower(requested))
    {
      EqIgnoreCaseIff(found[i].name, requested);
      if EqIgnoreCase(found[i].name, requested) {
        FirstIs(placed, Lower(requested), i);
        return Some(found[i].path);
      }
      NoKeyNext(placed, i, Lower(requested));
    }
    assert placed[..|found|] == placed;
    FirstIsNone(placed, Lower(requested));
    path := None;
  }

  lemma EmptyNoKey(all: seq<Placed>, key: string)
    ensures NoKey(all[..0], key)
  {
  }

  lemma NoKeyNext(all: seq<Placed>, i: nat, key: string)
    requires i < |all| && NoKey(all[..i], key) && KeyOf(all[i]) != key
    ensures NoKey(all[..i + 1], key)
  {
    assert all[..i + 1] == all[..i] + [all[i]];
  }

  method ResolveSkillPath(roots: seq<Root>, skill: string) returns (r: Result<string, IoError>)
    ensures r == Resolution(roots, skill)
  {
    hide RootReadable, InOrder, PlaceAll, First, Lower, Requested, Candidates, ReadablePrefix, AllReadable, Everything;
    PrefixReadable(roots);
    var requested := Requested(skill);
    if requested == "" {
      return Err(InvalidInput);
    }
    NoRoots();
    NothingFound(Lower(requested));
    for i := 0 to |roots|
      invariant i <= ReadablePrefix(roots) && AllReadable(roots[..i])
      invariant First(Everything(roots[..i]), Lower(requested)).None?
    {
      var found := ReadCandidates(roots[i]);
      if found.Err? {
        PrefixEnds(roots, i);
        return Err(ReadFailed);
      }
      PrefixGoesOn(roots, i);
      OneMoreRoot(roots, i);
      ghost var before, here := Everything(roots[..i]), PlaceAll(roots[i], InOrder(roots[i]));
      FirstOfConcat(before, here, Lower(requested));
      var path := FindCandidate(roots[i], InOrder(roots[i]), found.value, requested);
      if path.Some? {
        FoundBelow(roots, i + 1, ReadablePrefix(roots), Lower(requested));
        return Ok(path.value);
      }
    }
    assert roots[..|roots|] == roots;
    r := Err(NotFound(requested));
  }

  lemma NoRoots()
    ensures AllReadable([]) && Everything([]) == []
  {
  }

  lemma OneMoreRoot(roots: seq<Root>, i: nat)
    requires i < |roots| && AllReadable(roots[..i]) && RootReadable(roots[i])
    ensures AllReadable(roots[..i + 1])
    ensures Everything(roots[..i + 1]) == Everything(roots[..i]) + PlaceAll(roots[i], InOrder(roots[i]))
  {
    hide RootReadable, InOrder, PlaceAll;
    assert roots[..i + 1][..i] == roots[..i];
  }

  lemma NothingFound(key: string)
    ensures First([], key).None?
  {
  }

  lemma PrefixEnds(roots: seq<Root>, i: nat)
    requires i < |roots| && !RootReadable(roots[i]) && i <= ReadablePrefix(roots)
    ensures ReadablePrefix(roots) == i
  {
    hide RootReadable, ReadablePrefix;
    PrefixReadable(roots);
    var n := ReadablePrefix(roots);
    if i < n {
      ReadableAt(roots, n, i);
    }
  }

  lemma ReadableAt(roots: seq<Root>, n: nat, i: nat)
    requires i < n <= |roots| && AllReadable(roots[..n])
    ensures RootReadable(roots[i])
  {
    hide RootReadable;
    assert roots[..n][i] == roots[i];
  }

  lemma PrefixGoesOn(roots: seq<Root>, i: nat)
    requires i < |roots| && RootReadable(roots[i]) && i <= ReadablePrefix(roots)
    ensures i + 1 <= ReadablePrefix(roots)
  {
    hide RootReadable, ReadablePrefix;
    PrefixReadable(roots);
  }

  /** What is found under the first roots is found first under more of them. */
  lemma {:induction false} FoundBelow(roots: seq<Root>, i: nat, n: nat, key: string)
    requires i <= n <= |roots| && AllReadable(roots[..n]) && AllReadable(roots[..i])
    requires First(Everything(roots[..i]), key).Some?
    ensures var k := First(Everything(roots[..i]), key);
            && First(Everything(roots[..n]), key) == k
            && k.value < |Everything(roots[..n])|
            && Everything(roots[..n])[k.value] == Everything(roots[..i])[k.value]
    decreases n
  {
    hide RootReadable, InOrder, PlaceAll, First;
    if i < n {
      assert roots[..n][..n - 1] == roots[..n - 1];
      FewerReadable(roots, n);
      FoundBelow(roots, i, n - 1, key);
      FirstOfConcat(Everything(roots[..n - 1]), PlaceAll(roots[n - 1], InOrder(roots[n - 1])), key);
    }
  }

  lemma FewerReadable(roots: seq<Root>, n: nat)
    requires 0 < n <= |roots| && AllReadable(roots[..n])
    ensures AllReadable(roots[..n - 1]) && RootReadable(roots[n - 1])
  {
    hide RootReadable;
    assert roots[..n][n - 1] == roots[n - 1];
    var fewer := roots[..n - 1];
    forall i | 0 <= i < |fewer|
      ensures RootReadable(fewer[i])
    {
      assert roots[..n][i] == roots[i];
    }
  }

  // --- The two agree ---

  /** Of the skills of one name, exactly one is active, and it is the one that shadows the others. */
  lemma {:induction false} OneActivePerName(all: seq<Placed>, skills: seq<Summary>, k: nat) returns (winner: nat)
    requires IsListing(all, skills) && k < |skills|
    ensures winner <= k && EqIgnoreCase(skills[winner].name, skills[k].name) && skills[winner].shadowedBy.None?
    ensures forall j :: 0 <= j < |skills| && j != winner && EqIgnoreCase(skills[j].name, skills[k].name) ==>
              skills[j].shadowedBy == Some(skills[winner].source)
  {
    hide First, Lower, EqIgnoreCase;
    PresentKey(all, k);
    winner := First(all, KeyOf(all[k])).value;
    FirstHasKey(all, KeyOf(all[k]));
    EqIgnoreCaseIff(skills[winner].name, skills[k].name);
    forall j | 0 <= j < |skills| && j != winner && EqIgnoreCase(skills[j].name, skills[k].name)
      ensures skills[j].shadowedBy == Some(skills[winner].source)
    {
      EqIgnoreCaseIff(skills[j].name, skills[k].name);
    }
  }

  lemma {:induction false} FirstHasKey(all: seq<Placed>, key: string)
    ensures First(all, key).Some? ==> KeyOf(all[First(all, key).value]) == key
  {
    FirstCorrect(all, key);
    hide KeyOf, First;
  }

  /** Where the document of a listed skill is. */
  function DocumentOf(s: Summary): string {
    if s.origin.SkillsDir? then s.path + "/SKILL.md" else s.path
  }

  predicate WellPlaced(p: Placed) {
    p.definition.documentPath ==
      if p.root.origin.SkillsDir? then p.definition.entryPath + "/SKILL.md" else p.definition.entryPath
  }

  lemma {:induction false} DefinitionsWellPlaced(root: Root, entries: seq<DirEntry>, i: nat)
    requires Definitions(root, entries).Some? && i < |Definitions(root, entries).value|
    ensures WellPlaced(Placed(root, Definitions(root, entries).value[i]))
    decreases |entries|
  {
    if entries != [] {
      var init := entries[..|entries| - 1];
      if i < |Definitions(root, init).value| {
        DefinitionsWellPlaced(root, init, i);
      } else {
        EntryWellPlaced(root, entries[|entries| - 1]);
      }
    }
  }

  lemma EntryWellPlaced(root: Root, e: DirEntry)
    ensures var r := ReadEntry(root, e);
            r.Defined? ==> WellPlaced(Placed(root, r.definition))
  {
  }

  lemma {:induction false} EverythingWellPlaced(roots: seq<Root>, k: nat)
    requires AllReadable(roots) && k < |Everything(roots)|
    ensures WellPlaced(Everything(roots)[k])
    decreases |roots|
  {
    hide RootReadable, InOrder, WellPlaced;
    if roots != [] {
      var init, last := roots[..|roots| - 1], roots[|roots| - 1];
      if k < |Everything(init)| {
        EverythingWellPlaced(init, k);
      } else {
        RootWellPlaced(last, k - |Everything(init)|);
      }
    }
  }

  lemma RootWellPlaced(root: Root, k: nat)
    requires RootReadable(root) && k < |InOrder(root)|
    ensures WellPlaced(Placed(root, InOrder(root)[k]))
  {
    hide WellPlaced, ByName;
    var defs := Definitions(root, root.entries.value).value;
    SameElements(Sort(defs, ByName), defs);
    assert InOrder(root)[k] in InOrder(root);
    var i :| 0 <= i < |defs| && defs[i] == InOrder(root)[k];
    DefinitionsWellPlaced(root, root.entries.value, i);
  }

  /**
   * When every root can be read, the lookup answers exactly with the active skill of the listing
   * whose name is the one asked for, up to case; and it fails exactly when there is none.
   */
  lemma {:induction false} LookupAgreesWithListing(roots: seq<Root>, skill: string, skills: seq<Summary>)
    requires AllReadable(roots) && IsListing(Everything(roots), skills) && Requested(skill) != ""
    ensures forall k :: 0 <= k < |skills| && skills[k].shadowedBy.None? && EqIgnoreCase(skills[k].name, Requested(skill)) ==>
              Resolution(roots, skill) == Ok(DocumentOf(skills[k]))
    ensures (forall k :: 0 <= k < |skills| ==> !(skills[k].shadowedBy.None? && EqIgnoreCase(skills[k].name, Requested(skill)))) ==>
              Resolution(roots, skill) == Err(NotFound(Requested(skill)))
  {
    hide First, Lower, EqIgnoreCase, Requested, RootReadable, WellPlaced, Everything;
    var all, requested := Everything(roots), Requested(skill);
    AllReadablePrefix(roots);
    assert roots[..|roots|] == roots;
    FirstHasKey(all, Lower(requested));
    forall k | 0 <= k < |skills|
      ensures KeyOf(all[k]) == Lower(requested) <==> EqIgnoreCase(skills[k].name, requested)
      ensures DocumentOf(skills[k]) == all[k].definition.documentPath
      ensures First(all, KeyOf(all[k])).Some?
    {
      PresentKey(all, k);
      EqIgnoreCaseIff(skills[k].name, requested);
      EverythingWellPlaced(roots, k);
      DocumentOfListed(all, k);
    }
  }

  lemma DocumentOfListed(all: seq<Placed>, k: nat)
    requires k < |all| && WellPlaced(all[k])
    ensures DocumentOf(Listed(all, k)) == all[k].definition.documentPath
  {
    PresentKey(all, k);
    hide First, Lower, KeyOf;
  }

  lemma AllReadablePrefix(roots: seq<Root>)
    requires AllReadable(roots)
    ensures ReadablePrefix(roots) == |roots|
  {
    hide RootReadable, ReadablePrefix;
    PrefixReadable(roots);
  }

  /** A root that cannot be read hides the roots after it from the lookup, but not those before it. */
  lemma {:induction false} UnreadableRoot(roots: seq<Root>, skill: string)
    requires Requested(skill) != "" && !AllReadable(roots)
    ensures var n := ReadablePrefix(roots);
            Resolution(roots, skill) ==
              var earlier := Resolution(roots[..n], skill);
              if earlier.Ok? then earlier else Err(ReadFailed)
  {
    hide RootReadable, First, Lower, Requested, Everything, ReadablePrefix;
    PrefixReadable(roots);
    var n := ReadablePrefix(roots);
    AllReadablePrefix(roots[..n]);
    assert roots[..n][..n] == roots[..n];
    assert n < |roots| by {
      assert roots[..|roots|] == roots;
    }
  }
}
