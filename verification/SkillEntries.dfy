/** Listing, drift and lookup in terms of the entries on disk. */
module SkillEntries {
  import opened Text
  import opened Sorting
  import opened StreamTypes
  import opened SkillLookup

  // --- What an entry is ---

  predicate IsMd(extension: string) {
    extension in ["md", "mD", "Md", "MD"]
  }

  function NameOr(name: Option<string>, fallback: string): string {
    if name.Some? then name.value else fallback
  }

  /** The entry is this skill; whether it is shadowed is left open. */
  predicate IsSkill(root: Root, e: DirEntry, s: Summary) {
    && s.source == root.source && s.origin == root.origin
    && match e
       case Directory(n, Some(Readable(name, description))) =>
         && s.description == description
         && (match root.origin
             case SkillsDir => s.name == NameOr(name, n) && s.path == root.path + "/" + n && s.dirName == Some(n)
             case LegacyCommandsDir =>
               s.name == NameOr(name, "SKILL") && s.path == root.path + "/" + n + "/SKILL.md" && s.dirName == None)
       case File(stem, Some(extension), Readable(name, description)) =>
         && root.origin.LegacyCommandsDir? && IsMd(extension)
         && s.description == description && s.name == NameOr(name, stem)
         && s.path == root.path + "/" + (stem + "." + extension) && s.dirName == None
       case _ => false
  }

  ghost predicate HasSkill(root: Root, e: DirEntry) {
    exists s :: IsSkill(root, e, s)
  }

  /** The document of a skill: in a skills directory below its entry, otherwise the entry itself. */
  function SkillDocument(s: Summary): string {
    if s.origin.SkillsDir? then s.path + "/SKILL.md" else s.path
  }

  /** Reading the entry fails, and with it the reading of its root. */
  predicate Breaks(root: Root, e: DirEntry) {
    match e
    case BrokenEntry => true
    case Directory(_, skill) => skill == Some(Unreadable)
    case File(_, extension, d) => root.origin.LegacyCommandsDir? && extension.Some? && IsMd(extension.value) && d == Unreadable
  }

  lemma {:induction false} LowerMd(c: char)
    ensures LowerChar(c) == 'm' <==> c == 'm' || c == 'M'
    ensures LowerChar(c) == 'd' <==> c == 'd' || c == 'D'
  {
  }

  lemma {:induction false} MarkdownIff(extension: string)
    ensures EqIgnoreCase(extension, "md") <==> IsMd(extension)
  {
    hide LowerChar;
    assert LowerChar('m') == 'm' && LowerChar('d') == 'd' by {
      LowerMd('m');
      LowerMd('d');
    }
    if |extension| == 2 {
      LowerMd(extension[0]);
      LowerMd(extension[1]);
      assert extension == [extension[0], extension[1]];
    }
  }

  lemma {:induction false} EntryRead(root: Root, e: DirEntry)
    ensures ReadEntry(root, e).Failed? <==> Breaks(root, e)
    ensures ReadEntry(root, e).Defined? <==> HasSkill(root, e)
    ensures ReadEntry(root, e).Defined? ==>
              var d := ReadEntry(root, e).definition;
              IsSkill(root, e, SummaryOf(root, d)) && d.documentPath == SkillDocument(SummaryOf(root, d))
  {
    hide EqIgnoreCase, IsMd;
    if e.File? && e.extension.Some? {
      MarkdownIff(e.extension.value);
    }
    if ReadEntry(root, e).Defined? {
      assert IsSkill(root, e, SummaryOf(root, ReadEntry(root, e).definition));
    }
  }

  /** The entry decides all of the skill but the shadowing. */
  lemma {:induction false} SkillDetermined(root: Root, e: DirEntry, s: Summary, t: Summary)
    requires IsSkill(root, e, s) && IsSkill(root, e, t)
    ensures s.(shadowedBy := None) == t.(shadowedBy := None)
  {
  }

  // --- One root ---

  /** A place among the roots: the root and the entry under it. */
  datatype Place = Place(root: nat, entry: nat)

  ghost predicate IsPlace(roots: seq<Root>, p: Place) {
    p.root < |roots| && roots[p.root].entries.Some? && p.entry < |roots[p.root].entries.value|
  }

  function RootOf(roots: seq<Root>, p: Place): Root
    requires IsPlace(roots, p)
  {
    roots[p.root]
  }

  function EntryAt(roots: seq<Root>, p: Place): DirEntry
    requires IsPlace(roots, p)
  {
    roots[p.root].entries.value[p.entry]
  }

  ghost predicate NothingBreaks(root: Root) {
    root.entries.Some? && forall e :: e in root.entries.value ==> !Breaks(root, e)
  }

  lemma {:induction false} DefinedIff(root: Root, entries: seq<DirEntry>)
    ensures Definitions(root, entries).Some? <==> forall e :: e in entries ==> !Breaks(root, e)
  {
    hide ReadEntry, Breaks;
    if entries != [] {
      var init, last := entries[..|entries| - 1], entries[|entries| - 1];
      DefinedIff(root, init);
      EntryRead(root, last);
      assert entries == init + [last];
    }
  }

  /** A root can be read exactly when its directory can and no entry breaks it. */
  lemma {:induction false} ReadableIff(root: Root)
    ensures RootReadable(root) <==> NothingBreaks(root)
  {
    if root.entries.Some? {
      DefinedIff(root, root.entries.value);
    }
  }

  /** Each definition with the number of its entry. */
  datatype Tagged = Tagged(definition: Definition, at: nat)

  predicate TaggedLe(a: Tagged, b: Tagged) {
    StringLe(a.definition.name, b.definition.name)
  }

  function Untagged(s: seq<Tagged>): (r: seq<Definition>)
    ensures |r| == |s| && forall k :: 0 <= k < |s| ==> r[k] == s[k].definition
  {
    if s == [] then [] else [s[0].definition] + Untagged(s[1..])
  }

  ghost predicate ComesFrom(root: Root, entries: seq<DirEntry>, x: Tagged) {
    x.at < |entries| && ReadEntry(root, entries[x.at]) == Defined(x.definition)
  }

  /** The definitions come from these entries, each entry at most once, and none with a skill is left out. */
  ghost predicate ComeFrom(root: Root, entries: seq<DirEntry>, s: seq<Tagged>) {
    && (forall x :: x in s ==> ComesFrom(root, entries, x))
    && (forall j: nat :: j < |entries| && ReadEntry(root, entries[j]).Defined? ==>
          exists k :: 0 <= k < |s| && s[k].at == j)
  }

  ghost predicate Ascending(s: seq<Tagged>) {
    forall k, l :: 0 <= k < l < |s| ==> s[k].at < s[l].at
  }

  lemma {:induction false} TagDefinitions(root: Root, entries: seq<DirEntry>) returns (s: seq<Tagged>)
    requires Definitions(root, entries).Some?
    ensures Untagged(s) == Definitions(root, entries).value && Ascending(s) && ComeFrom(root, entries, s)
  {
    hide ReadEntry, Untagged, ComeFrom;
    if entries == [] {
      s := [];
      NoEntries(root);
    } else {
      var n := |entries| - 1;
      var init := entries[..n];
      var t := TagDefinitions(root, init);
      FromFewer(root, entries, t);
      var last := ReadEntry(root, entries[n]);
      if last.Skipped? {
        s := t;
      } else {
        s := t + [Tagged(last.definition, n)];
      }
      assert Untagged(s) == Definitions(root, entries).value;
    }
  }

  lemma {:induction false} NoEntries(root: Root)
    ensures ComeFrom(root, [], []) && Untagged([]) == []
  {
  }

  lemma {:induction false} FromFewer(root: Root, entries: seq<DirEntry>, t: seq<Tagged>)
    requires entries != [] && ComeFrom(root, entries[..|entries| - 1], t)
    ensures var n := |entries| - 1;
            var last := ReadEntry(root, entries[n]);
            && (forall k :: 0 <= k < |t| ==> t[k].at < n)
            && (!last.Defined? ==> ComeFrom(root, entries, t))
            && (last.Defined? ==> ComeFrom(root, entries, t + [Tagged(last.definition, n)]))
  {
    hide ReadEntry;
    var n := |entries| - 1;
    var init, last := entries[..n], ReadEntry(root, entries[n]);
    var s := if last.Defined? then t + [Tagged(last.definition, n)] else t;
    forall k | 0 <= k < |t|
      ensures t[k].at < n && ComesFrom(root, entries, t[k])
    {
      assert t[k] in t;
      assert ComesFrom(root, init, t[k]);
    }
    forall j: nat | j < |entries| && ReadEntry(root, entries[j]).Defined?
      ensures exists k :: 0 <= k < |s| && s[k].at == j
    {
      if j < n {
        assert init[j] == entries[j];
        var k :| 0 <= k < |t| && t[k].at == j;
        assert s[k].at == j;
      } else {
        assert s[|t|].at == j;
      }
    }
  }

  // --- Sorting keeps the places ---

  lemma {:induction false} InsertTagged(x: Tagged, s: seq<Tagged>)
    ensures Untagged(Insert(x, s, TaggedLe)) == Insert(x.definition, Untagged(s), ByName)
  {
    hide StringLe;
    if s == [] {
    } else {
      assert Untagged(s)[1..] == Untagged(s[1..]);
      if !TaggedLe(x, s[0]) {
        InsertTagged(x, s[1..]);
      }
    }
  }

  lemma {:induction false} SortTagged(s: seq<Tagged>)
    ensures Untagged(Sort(s, TaggedLe)) == Sort(Untagged(s), ByName)
  {
    hide StringLe;
    if s != [] {
      assert Untagged(s)[1..] == Untagged(s[1..]);
      SortTagged(s[1..]);
      InsertTagged(s[0], Sort(s[1..], TaggedLe));
    }
  }

  /** By name, and by place where names are equal. */
  ghost predicate Precedes(a: Tagged, b: Tagged) {
    StringLe(a.definition.name, b.definition.name) && (a.definition.name == b.definition.name ==> a.at < b.at)
  }

  ghost predicate Ranked(s: seq<Tagged>) {
    forall k, l :: 0 <= k < l < |s| ==> Precedes(s[k], s[l])
  }

  lemma {:induction false} InsertRanked(x: Tagged, s: seq<Tagged>)
    requires Ranked(s) && forall k :: 0 <= k < |s| ==> x.at < s[k].at
    ensures Ranked(Insert(x, s, TaggedLe))
  {
    hide StringLe;
    StringOrder();
    if s == [] {
    } else if TaggedLe(x, s[0]) {
      assert forall l :: 0 < l < |s| ==> Precedes(s[0], s[l]);
    } else {
      InsertRanked(x, s[1..]);
      InsertedElements(x, s[1..], TaggedLe);
      var r := Insert(x, s[1..], TaggedLe);
      forall j | 0 <= j < |r|
        ensures Precedes(s[0], r[j])
      {
        assert r[j] in r;
      }
    }
  }

  lemma {:induction false} SortRanked(s: seq<Tagged>)
    requires Ascending(s)
    ensures Ranked(Sort(s, TaggedLe))
  {
    hide Precedes;
    if s != [] {
      SortRanked(s[1..]);
      var r := Sort(s[1..], TaggedLe);
      SameElements(r, s[1..]);
      forall k | 0 <= k < |r|
        ensures s[0].at < r[k].at
      {
        assert r[k] in s[1..];
      }
      InsertRanked(s[0], r);
    }
  }

  lemma {:induction false} ReorderedFrom(root: Root, entries: seq<DirEntry>, s: seq<Tagged>, r: seq<Tagged>)
    requires ComeFrom(root, entries, s) && multiset(r) == multiset(s)
    ensures ComeFrom(root, entries, r)
  {
    hide ComesFrom, ReadEntry;
    SameElements(r, s);
    forall j: nat | j < |entries| && ReadEntry(root, entries[j]).Defined?
      ensures exists k :: 0 <= k < |r| && r[k].at == j
    {
      var k :| 0 <= k < |s| && s[k].at == j;
      assert s[k] in r;
    }
  }

  /** The sorted definitions of a root, each with its entry. */
  lemma {:induction false} TagRoot(root: Root) returns (s: seq<Tagged>)
    requires RootReadable(root)
    ensures Untagged(s) == InOrder(root) && Ranked(s) && ComeFrom(root, root.entries.value, s)
  {
    hide Definitions, ComeFrom, Ranked, Ascending, Untagged, TaggedLe, ByName;
    var entries := root.entries.value;
    var t := TagDefinitions(root, entries);
    s := Sort(t, TaggedLe);
    SortTagged(t);
    SortRanked(t);
    ReorderedFrom(root, entries, t, s);
  }

  // --- All roots ---

  /** What stands at the place is this definition. */
  ghost predicate Defines(roots: seq<Root>, p: Place, d: Placed) {
    IsPlace(roots, p) && d.root == RootOf(roots, p) && ReadEntry(d.root, EntryAt(roots, p)) == Defined(d.definition)
  }

  /** Earlier in the listing: an earlier root, then an earlier name, then an earlier entry. */
  ghost predicate Before(p: Place, name: string, q: Place, other: string) {
    p.root < q.root
    || (p.root == q.root && StringLe(name, other) && (name == other ==> p.entry < q.entry))
  }

  ghost predicate InPlaceOrder(all: seq<Placed>, o: seq<Place>)
    requires |o| == |all|
  {
    forall k, l :: 0 <= k < l < |o| ==> Before(o[k], all[k].definition.name, o[l], all[l].definition.name)
  }

  ghost predicate Locates(roots: seq<Root>, all: seq<Placed>, o: seq<Place>) {
    && |o| == |all|
    && (forall k :: 0 <= k < |o| ==> Defines(roots, o[k], all[k]))
    && (forall p :: IsPlace(roots, p) && ReadEntry(RootOf(roots, p), EntryAt(roots, p)).Defined? ==> p in o)
    && InPlaceOrder(all, o)
  }

  function PlacesIn(n: nat, s: seq<Tagged>): (r: seq<Place>)
    ensures |r| == |s| && forall k :: 0 <= k < |s| ==> r[k] == Place(n, s[k].at)
  {
    if s == [] then [] else [Place(n, s[0].at)] + PlacesIn(n, s[1..])
  }

  lemma {:induction false} MorePlaces(roots: seq<Root>, o: seq<Place>, before: seq<Placed>, s: seq<Tagged>)
    requires roots != []
    requires var last := roots[|roots| - 1];
             last.entries.Some? && Ranked(s) && ComeFrom(last, last.entries.value, s)
    requires Locates(roots[..|roots| - 1], before, o)
    ensures var last := roots[|roots| - 1];
            Locates(roots, before + PlaceAll(last, Untagged(s)), o + PlacesIn(|roots| - 1, s))
  {
    hide Defines, Before, ComeFrom, Ranked, InPlaceOrder, PlacesIn, PlaceAll, Untagged, ReadEntry;
    var n := |roots| - 1;
    var all, o' := before + PlaceAll(roots[n], Untagged(s)), o + PlacesIn(n, s);
    forall k | 0 <= k < |o'|
      ensures Defines(roots, o'[k], all[k])
    {
      if k < |o| {
        StillDefines(roots, o[k], before[k]);
      } else {
        NewDefines(roots, s, k - |o|);
      }
    }
    forall p | IsPlace(roots, p) && ReadEntry(RootOf(roots, p), EntryAt(roots, p)).Defined?
      ensures p in o'
    {
      if p.root < n {
        assert p in o;
      } else {
        NewCovered(roots, s, p);
      }
    }
    forall k | 0 <= k < |o|
      ensures o[k].root < n
    {
      StillDefines(roots, o[k], before[k]);
    }
    MoreInOrder(o, before, n, roots[n], s);
  }

  lemma {:induction false} StillDefines(roots: seq<Root>, p: Place, d: Placed)
    requires roots != [] && Defines(roots[..|roots| - 1], p, d)
    ensures Defines(roots, p, d) && p.root < |roots| - 1
  {
    hide ReadEntry;
  }

  lemma {:induction false} NewDefines(roots: seq<Root>, s: seq<Tagged>, k: nat)
    requires roots != [] && k < |s|
    requires var last := roots[|roots| - 1];
             last.entries.Some? && ComeFrom(last, last.entries.value, s)
    ensures var last := roots[|roots| - 1];
            Defines(roots, PlacesIn(|roots| - 1, s)[k], PlaceAll(last, Untagged(s))[k])
  {
    hide ReadEntry;
    assert s[k] in s;
  }

  lemma {:induction false} NewCovered(roots: seq<Root>, s: seq<Tagged>, p: Place)
    requires IsPlace(roots, p) && p.root == |roots| - 1 && ReadEntry(RootOf(roots, p), EntryAt(roots, p)).Defined?
    requires ComeFrom(RootOf(roots, p), RootOf(roots, p).entries.value, s)
    ensures p in PlacesIn(|roots| - 1, s)
  {
    hide ReadEntry;
    var k :| 0 <= k < |s| && s[k].at == p.entry;
    assert PlacesIn(|roots| - 1, s)[k] == p;
  }

  lemma {:induction false} MoreInOrder(o: seq<Place>, before: seq<Placed>, n: nat, last: Root, s: seq<Tagged>)
    requires |o| == |before| && InPlaceOrder(before, o) && Ranked(s)
    requires forall i :: 0 <= i < |o| ==> o[i].root < n
    ensures InPlaceOrder(before + PlaceAll(last, Untagged(s)), o + PlacesIn(n, s))
  {
    hide Before, Ranked, PlacesIn, PlaceAll, Untagged;
    var all, o' := before + PlaceAll(last, Untagged(s)), o + PlacesIn(n, s);
    forall k, l | 0 <= k < l < |o'|
      ensures Before(o'[k], all[k].definition.name, o'[l], all[l].definition.name)
    {
      InOrderAt(o, before, n, last, s, k, l);
    }
  }

  lemma {:induction false} InOrderAt(o: seq<Place>, before: seq<Placed>, n: nat, last: Root, s: seq<Tagged>, k: nat, l: nat)
    requires |o| == |before| && InPlaceOrder(before, o) && Ranked(s) && k < l < |o| + |s|
    requires forall i :: 0 <= i < |o| ==> o[i].root < n
    ensures var all, o' := before + PlaceAll(last, Untagged(s)), o + PlacesIn(n, s);
            Before(o'[k], all[k].definition.name, o'[l], all[l].definition.name)
  {
    hide StringLe, PlacesIn, PlaceAll, Untagged, InPlaceOrder, Ranked;
    var m := |o|;
    if l < m {
      BeforeAt(before, o, k, l);
    } else if k < m {
      assert o[k].root < n;
    } else {
      PrecedesAt(s, k - m, l - m);
    }
  }

  lemma {:induction false} BeforeAt(all: seq<Placed>, o: seq<Place>, k: nat, l: nat)
    requires |o| == |all| && InPlaceOrder(all, o) && k < l < |o|
    ensures Before(o[k], all[k].definition.name, o[l], all[l].definition.name)
  {
    hide Before;
  }

  lemma {:induction false} PrecedesAt(s: seq<Tagged>, k: nat, l: nat)
    requires Ranked(s) && k < l < |s|
    ensures Precedes(s[k], s[l])
  {
    hide Precedes;
  }

  /** The place of every definition. */
  lemma {:induction false} Locate(roots: seq<Root>) returns (o: seq<Place>)
    requires SkillLookup.AllReadable(roots)
    ensures Locates(roots, Everything(roots), o)
    decreases |roots|
  {
    hide RootReadable, InOrder, Locates, Ranked, ComeFrom, Untagged, PlaceAll;
    if roots == [] {
      o := [];
      NothingLocated();
    } else {
      var n := |roots| - 1;
      var t := Locate(roots[..n]);
      ReadableIff(roots[n]);
      var s := TagRoot(roots[n]);
      o := t + PlacesIn(n, s);
      MorePlaces(roots, t, Everything(roots[..n]), s);
    }
  }

  lemma {:induction false} NothingLocated()
    ensures Locates([], [], [])
  {
  }

  // --- The listing ---

  ghost predicate AllRead(roots: seq<Root>) {
    forall i :: 0 <= i < |roots| ==> NothingBreaks(roots[i])
  }

  /** Everything can be read exactly when no root is missing and no entry is broken. */
  lemma {:induction false} AllReadIff(roots: seq<Root>)
    ensures SkillLookup.AllReadable(roots) <==> AllRead(roots)
  {
    hide RootReadable, NothingBreaks;
    forall i | 0 <= i < |roots|
      ensures RootReadable(roots[i]) <==> NothingBreaks(roots[i])
    {
      ReadableIff(roots[i]);
    }
  }

  /** The listing is made of the skills on disk: each from its own entry, none left out, in this order. */
  ghost predicate ListsEntries(roots: seq<Root>, skills: seq<Summary>, o: seq<Place>) {
    && |o| == |skills|
    && (forall k :: 0 <= k < |o| ==> IsPlace(roots, o[k]) && IsSkill(RootOf(roots, o[k]), EntryAt(roots, o[k]), skills[k]))
    && (forall k, l :: 0 <= k < l < |o| ==> o[k] != o[l] && Before(o[k], skills[k].name, o[l], skills[l].name))
    && (forall p :: IsPlace(roots, p) && HasSkill(RootOf(roots, p), EntryAt(roots, p)) ==> p in o)
  }

  lemma {:induction false} ListingIsEntries(roots: seq<Root>, skills: seq<Summary>) returns (o: seq<Place>)
    requires SkillLookup.AllReadable(roots) && IsListing(Everything(roots), skills)
    ensures ListsEntries(roots, skills, o)
  {
    hide RootReadable, Everything, ReadEntry, IsSkill, HasSkill, Before, StringLe;
    o := Locate(roots);
    var all := Everything(roots);
    forall k | 0 <= k < |o|
      ensures IsPlace(roots, o[k]) && IsSkill(RootOf(roots, o[k]), EntryAt(roots, o[k]), skills[k])
      ensures skills[k].name == all[k].definition.name
    {
      ListedFrom(roots, all, o[k], k);
    }
    forall k, l | 0 <= k < l < |o|
      ensures o[k] != o[l] && Before(o[k], skills[k].name, o[l], skills[l].name)
    {
      assert Before(o[k], all[k].definition.name, o[l], all[l].definition.name);
      BeforeItself(o[k], skills[k].name, skills[l].name);
      assert Defines(roots, o[k], all[k]) && Defines(roots, o[l], all[l]);
    }
    forall p | IsPlace(roots, p) && HasSkill(RootOf(roots, p), EntryAt(roots, p))
      ensures p in o
    {
      EntryRead(RootOf(roots, p), EntryAt(roots, p));
    }
  }

  lemma {:induction false} BeforeItself(p: Place, name: string, other: string)
    ensures Before(p, name, p, other) ==> name != other
  {
    hide StringLe;
  }

  lemma {:induction false} ListedFrom(roots: seq<Root>, all: seq<Placed>, p: Place, k: nat)
    requires k < |all| && Defines(roots, p, all[k])
    ensures IsSkill(RootOf(roots, p), EntryAt(roots, p), Listed(all, k)) && Listed(all, k).name == all[k].definition.name
  {
    EntryRead(RootOf(roots, p), EntryAt(roots, p));
    ShadowingLeftOpen(RootOf(roots, p), EntryAt(roots, p), SummaryOf(all[k].root, all[k].definition), Listed(all, k).shadowedBy);
    hide First, KeyOf, IsSkill, ReadEntry;
    PresentKey(all, k);
  }

  lemma {:induction false} ShadowingLeftOpen(root: Root, e: DirEntry, s: Summary, by_: Option<Source>)
    ensures IsSkill(root, e, s.(shadowedBy := by_)) == IsSkill(root, e, s)
  {
  }

  // --- The drift ---

  /** The entry is a skill directory whose front matter names it otherwise. */
  predicate IsDrift(root: Root, e: DirEntry, x: Drift) {
    match e
    case Directory(n, Some(Readable(Some(m), _))) =>
      root.origin.SkillsDir? && m != n && x == Drift(n, m, root.path + "/" + n)
    case _ => false
  }

  ghost predicate HasDrift(root: Root, e: DirEntry) {
    exists x :: IsDrift(root, e, x)
  }

  lemma {:induction false} EntryDrift(root: Root, e: DirEntry)
    ensures var r := ReadEntry(root, e);
            if HasDrift(root, e) then r.Defined? && |Drifted(r.definition)| == 1 && IsDrift(root, e, Drifted(r.definition)[0])
            else r.Defined? ==> Drifted(r.definition) == []
  {
    var r := ReadEntry(root, e);
    if r.Defined? && Drifted(r.definition) != [] {
      assert IsDrift(root, e, Drifted(r.definition)[0]);
    }
  }

  /** The drifts of some entries: each from its own entry, none left out, in their order. */
  ghost predicate DriftsFrom(root: Root, entries: seq<DirEntry>, drift: seq<Drift>, at: seq<nat>) {
    && |at| == |drift|
    && (forall k :: 0 <= k < |at| ==> at[k] < |entries| && IsDrift(root, entries[at[k]], drift[k]))
    && (forall k, l :: 0 <= k < l < |at| ==> at[k] < at[l])
    && (forall j: nat :: j < |entries| && HasDrift(root, entries[j]) ==> j in at)
  }

  lemma {:induction false} EntriesDrift(root: Root, entries: seq<DirEntry>) returns (at: seq<nat>)
    requires Definitions(root, entries).Some?
    ensures DriftsFrom(root, entries, Drifts(Definitions(root, entries).value), at)
  {
    hide ReadEntry, Drifts, Drifted, IsDrift, HasDrift, DriftsFrom;
    NothingDefined(root);
    if entries == [] {
      at := [];
      NoDrifts(root);
    } else {
      var n := |entries| - 1;
      var init := entries[..n];
      var before := EntriesDrift(root, init);
      var last := ReadEntry(root, entries[n]);
      EntryDrift(root, entries[n]);
      var drift := Drifts(Definitions(root, init).value);
      if last.Defined? {
        OneMoreDefinition(root, Definitions(root, init).value, last.definition);
      }
      at := if HasDrift(root, entries[n]) then before + [n] else before;
      MoreDrifts(root, entries, drift, before);
      assert drift + [] == drift;
      assert last.Defined? && HasDrift(root, entries[n]) ==> Drifted(last.definition) == [Drifted(last.definition)[0]];
    }
  }

  lemma {:induction false} NoDrifts(root: Root)
    ensures DriftsFrom(root, [], [], [])
  {
  }

  lemma {:induction false} MoreDrifts(root: Root, entries: seq<DirEntry>, drift: seq<Drift>, at: seq<nat>)
    requires entries != [] && DriftsFrom(root, entries[..|entries| - 1], drift, at)
    ensures var n := |entries| - 1;
            && (!HasDrift(root, entries[n]) ==> DriftsFrom(root, entries, drift, at))
            && (forall x :: IsDrift(root, entries[n], x) ==> DriftsFrom(root, entries, drift + [x], at + [n]))
  {
    hide IsDrift, HasDrift;
    var n := |entries| - 1;
    var init := entries[..n];
    forall j: nat | j < |entries| && HasDrift(root, entries[j])
      ensures j in at + [n] && (j < n ==> j in at)
    {
      if j < n {
        assert HasDrift(root, init[j]);
        assert j in at;
      }
    }
  }

  /** All drifts, each with its place, from root to root. */
  ghost predicate DriftIsEntries(roots: seq<Root>, drift: seq<Drift>, o: seq<Place>) {
    && |o| == |drift|
    && (forall k :: 0 <= k < |o| ==> IsPlace(roots, o[k]) && IsDrift(RootOf(roots, o[k]), EntryAt(roots, o[k]), drift[k]))
    && (forall k, l :: 0 <= k < l < |o| ==> o[k].root < o[l].root || (o[k].root == o[l].root && o[k].entry < o[l].entry))
    && (forall p :: IsPlace(roots, p) && HasDrift(RootOf(roots, p), EntryAt(roots, p)) ==> p in o)
  }

  function DriftPlaces(n: nat, at: seq<nat>): (r: seq<Place>)
    ensures |r| == |at| && forall k :: 0 <= k < |at| ==> r[k] == Place(n, at[k])
  {
    if at == [] then [] else [Place(n, at[0])] + DriftPlaces(n, at[1..])
  }

  lemma {:induction false} DriftIs(roots: seq<Root>) returns (o: seq<Place>)
    requires SkillLookup.AllReadable(roots)
    ensures DriftIsEntries(roots, AllDrifts(roots), o)
    decreases |roots|
  {
    hide Definitions, Drifts, DriftsFrom, DriftIsEntries;
    if roots == [] {
      o := [];
      NoDriftAtAll();
    } else {
      var n := |roots| - 1;
      assert RootReadable(roots[n]);
      var before := DriftIs(roots[..n]);
      var at := EntriesDrift(roots[n], roots[n].entries.value);
      o := before + DriftPlaces(n, at);
      DriftOfOneMore(roots, AllDrifts(roots[..n]), before, RootDrifts(roots[n]), at);
    }
  }

  lemma {:induction false} NoDriftAtAll()
    ensures DriftIsEntries([], [], [])
  {
  }

  lemma {:induction false} DriftOfOneMore(roots: seq<Root>, before: seq<Drift>, o: seq<Place>, more: seq<Drift>, at: seq<nat>)
    requires roots != [] && roots[|roots| - 1].entries.Some?
    requires DriftIsEntries(roots[..|roots| - 1], before, o)
    requires DriftsFrom(roots[|roots| - 1], roots[|roots| - 1].entries.value, more, at)
    ensures DriftIsEntries(roots, before + more, o + DriftPlaces(|roots| - 1, at))
  {
    hide IsDrift, HasDrift, DriftPlaces;
    var n := |roots| - 1;
    var init, drift, o' := roots[..n], before + more, o + DriftPlaces(n, at);
    forall k | 0 <= k < |o|
      ensures o[k].root < n && IsPlace(roots, o[k]) && IsDrift(RootOf(roots, o[k]), EntryAt(roots, o[k]), drift[k])
    {
      assert IsPlace(init, o[k]);
    }
    forall p | IsPlace(roots, p) && HasDrift(RootOf(roots, p), EntryAt(roots, p))
      ensures p in o'
    {
      if p.root < n {
        assert IsPlace(init, p);
        assert p in o;
      } else {
        var k :| 0 <= k < |at| && at[k] == p.entry;
        assert o'[|o| + k] == p;
      }
    }
  }

  // --- The lookup ---

  /** The entry at the place is a skill with the name asked for, up to case. */
  ghost predicate Answers(roots: seq<Root>, p: Place, s: Summary, requested: string) {
    IsPlace(roots, p) && IsSkill(RootOf(roots, p), EntryAt(roots, p), s) && EqIgnoreCase(s.name, requested)
  }

  /** The lookup gives the document of the first skill of that name: by root, then by name, then by entry. */
  lemma {:induction false} LookupFindsFirst(roots: seq<Root>, skill: string, p: Place, s: Summary)
    requires AllRead(roots) && Requested(skill) != "" && Answers(roots, p, s, Requested(skill))
    requires forall q, t :: Answers(roots, q, t, Requested(skill)) && q != p ==> Before(p, s.name, q, t.name)
    ensures Resolution(roots, skill) == Ok(SkillDocument(s))
  {
    hide RootReadable, Everything, Before, IsSkill, ReadEntry, First, Lower, EqIgnoreCase, Requested, ReadablePrefix, AllRead, SkillDocument;
    AllReadIff(roots);
    AllReadablePrefix(roots);
    assert roots[..|roots|] == roots;
    var all, requested := Everything(roots), Requested(skill);
    var o := Locate(roots);
    var l := PlaceNumber(roots, all, o, p, s);
    EqIgnoreCaseIff(s.name, requested);
    PresentKey(all, l);
    FirstHasKey(all, Lower(requested));
    var k := First(all, Lower(requested)).value;
    DefinesSkill(roots, o[k], all[k]);
    var t := SummaryOf(all[k].root, all[k].definition);
    EqIgnoreCaseIff(t.name, requested);
    assert Answers(roots, o[k], t, requested);
    if o[k] != p {
      BeforeAt(all, o, k, l);
      NotBothBefore(o[k], t.name, p, s.name);
    }
    SkillDetermined(RootOf(roots, p), EntryAt(roots, p), s, t);
    SameDocument(s, t);
  }

  lemma {:induction false} SameDocument(s: Summary, t: Summary)
    requires s.(shadowedBy := None) == t.(shadowedBy := None)
    ensures SkillDocument(s) == SkillDocument(t)
  {
  }

  lemma {:induction false} NotBothBefore(p: Place, name: string, q: Place, other: string)
    requires p != q
    ensures !(Before(p, name, q, other) && Before(q, other, p, name))
  {
    hide StringLe;
    StringOrder();
  }

  lemma {:induction false} DefinesSkill(roots: seq<Root>, p: Place, d: Placed)
    requires Defines(roots, p, d)
    ensures IsSkill(RootOf(roots, p), EntryAt(roots, p), SummaryOf(d.root, d.definition))
    ensures d.definition.documentPath == SkillDocument(SummaryOf(d.root, d.definition))
  {
    hide ReadEntry, IsSkill, SkillDocument;
    EntryRead(RootOf(roots, p), EntryAt(roots, p));
  }

  lemma {:induction false} PlaceNumber(roots: seq<Root>, all: seq<Placed>, o: seq<Place>, p: Place, s: Summary) returns (l: nat)
    requires Locates(roots, all, o) && IsPlace(roots, p) && IsSkill(RootOf(roots, p), EntryAt(roots, p), s)
    ensures l < |o| && |o| == |all| && o[l] == p && all[l].definition.name == s.name
  {
    hide ReadEntry, IsSkill, InPlaceOrder, SkillDocument;
    EntryRead(RootOf(roots, p), EntryAt(roots, p));
    l :| 0 <= l < |o| && o[l] == p;
    DefinesSkill(roots, p, all[l]);
    SkillDetermined(RootOf(roots, p), EntryAt(roots, p), s, SummaryOf(all[l].root, all[l].definition));
  }

  /** And it finds nothing exactly when no entry is such a skill. */
  lemma {:induction false} LookupMissesIff(roots: seq<Root>, skill: string)
    requires AllRead(roots) && Requested(skill) != ""
    ensures Resolution(roots, skill) == Err(NotFound(Requested(skill)))
            <==> forall p, s :: !Answers(roots, p, s, Requested(skill))
    ensures Resolution(roots, skill).Err? ==> Resolution(roots, skill) == Err(NotFound(Requested(skill)))
  {
    hide RootReadable, Everything, IsSkill, ReadEntry, First, Lower, EqIgnoreCase, Requested, ReadablePrefix, AllRead, SkillDocument;
    AllReadIff(roots);
    AllReadablePrefix(roots);
    assert roots[..|roots|] == roots;
    var all, requested := Everything(roots), Requested(skill);
    var o := Locate(roots);
    var first := First(all, Lower(requested));
    if first.Some? {
      FirstHasKey(all, Lower(requested));
      var t := SummaryOf(all[first.value].root, all[first.value].definition);
      DefinesSkill(roots, o[first.value], all[first.value]);
      EqIgnoreCaseIff(t.name, requested);
      assert Answers(roots, o[first.value], t, requested);
    } else {
      forall p, s
        ensures !Answers(roots, p, s, requested)
      {
        NoneAnswers(roots, all, o, p, s, requested);
      }
    }
  }

  lemma {:induction false} NoneAnswers(roots: seq<Root>, all: seq<Placed>, o: seq<Place>, p: Place, s: Summary, requested: string)
    requires Locates(roots, all, o) && First(all, Lower(requested)).None?
    ensures !Answers(roots, p, s, requested)
  {
    hide ReadEntry, IsSkill, First, Lower, EqIgnoreCase, Locates;
    if Answers(roots, p, s, requested) {
      var l := PlaceNumber(roots, all, o, p, s);
      EqIgnoreCaseIff(s.name, requested);
      PresentKey(all, l);
    }
  }

  // --- The name asked for ---

  /** A name is asked for as it is: without the space around it and the slashes and dollars in front of it. */
  lemma {:induction false} RequestedIs(a: string, slashes: string, dollars: string, name: string, b: string)
    requires AllSpace(a) && AllSpace(b) && AllAre(slashes, '/') && AllAre(dollars, '$')
    requires IsTrimmed(slashes + (dollars + name))
    requires name != "" ==> name[0] != '$' && (dollars == "" ==> name[0] != '/')
    ensures Requested(a + (slashes + (dollars + name) + b)) == name
  {
    hide Trim, TrimStartMatches, IsTrimmed;
    SurroundingsTrimmed(a, slashes + (dollars + name), b);
    MatchesDropped(slashes, dollars + name, '/');
    MatchesDropped(dollars, name, '$');
  }

  /** A request without a name is refused before anything is read. */
  lemma {:induction false} NothingAskedFor(roots: seq<Root>, skill: string)
    ensures Resolution(roots, skill) == Err(InvalidInput) <==> Requested(skill) == ""
  {
    hide RootReadable, Everything, First, Lower, Requested, ReadablePrefix;
  }
}
