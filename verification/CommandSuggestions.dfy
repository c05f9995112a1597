/** Suggesting slash commands for a mistyped one. */
module CommandSuggestions {
  import opened Text
  import opened Sorting
  import EditDistance

  datatype Spec = Spec(name: string, aliases: seq<string>)

  const MOST_EDITS: nat := 2

  function Query(input: string): string {
    Lower(TrimStartMatches(Trim(input), '/'))
  }

  /** How well one name fits: 0 if one begins the other, 1 if one contains the other, else 2. */
  function Rank(candidate: string, query: string): nat {
    if StartsWith(candidate, query) || StartsWith(query, candidate) then 0
    else if Find(candidate, query).Some? || Find(query, candidate).Some? then 1
    else 2
  }

  datatype Fit = Fit(rank: nat, distance: nat)

  predicate FitLe(a: Fit, b: Fit) {
    a.rank < b.rank || (a.rank == b.rank && a.distance <= b.distance)
  }

  function FitOf(candidate: string, query: string): Fit {
    var c := Lower(candidate);
    Fit(Rank(c, query), EditDistance.Distance(c, query))
  }

  /** The best fit among a name and the ones after it. */
  function BestFit(name: string, others: seq<string>, query: string): Fit
    decreases |others|
  {
    var fit := FitOf(name, query);
    if others == [] then fit
    else
      var rest := BestFit(others[0], others[1..], query);
      if FitLe(fit, rest) then fit else rest
  }

  function BestOf(spec: Spec, query: string): Fit {
    BestFit(spec.name, spec.aliases, query)
  }

  predicate Qualifies(spec: Spec, query: string) {
    BestOf(spec, query).rank <= 1 || BestOf(spec, query).distance <= MOST_EDITS
  }

  /** What suggestions are sorted by. */
  datatype Key = Key(fit: Fit, length: nat, name: string)

  predicate KeyLe(a: Key, b: Key) {
    if a.fit != b.fit then FitLe(a.fit, b.fit)
    else if a.length != b.length then a.length < b.length
    else StringLe(a.name, b.name)
  }

  function KeyOf(spec: Spec, query: string): Key {
    Key(BestOf(spec, query), |spec.name|, spec.name)
  }

  function Keys(specs: seq<Spec>, query: string): seq<Key> {
    if specs == [] then []
    else
      (if Qualifies(specs[0], query) then [KeyOf(specs[0], query)] else []) + Keys(specs[1..], query)
  }

  function Rendered(keys: seq<Key>): (r: seq<string>)
    ensures |r| == |keys| && forall i :: 0 <= i < |keys| ==> r[i] == "/" + keys[i].name
  {
    if keys == [] then [] else ["/" + keys[0].name] + Rendered(keys[1..])
  }

  function Suggest(input: string, specs: seq<Spec>, limit: nat): seq<string> {
    var query := Query(input);
    if query == "" || limit == 0 then []
    else
      var sorted := Sort(Keys(specs, query), KeyLe);
      Rendered(sorted[..if limit < |sorted| then limit else |sorted|])
  }

  // --- Which commands qualify ---

  lemma {:induction false} BestFitIsBest(name: string, others: seq<string>, query: string)
    ensures var best := BestFit(name, others, query);
            && FitLe(best, FitOf(name, query))
            && (forall a :: a in others ==> FitLe(best, FitOf(a, query)))
            && (best == FitOf(name, query) || exists a :: a in others && best == FitOf(a, query))
    decreases |others|
  {
    hide FitOf;
    if others != [] {
      BestFitIsBest(others[0], others[1..], query);
      assert forall a :: a in others <==> a == others[0] || a in others[1..];
    }
  }

  /** The name occurs in the query, or the query in the name, or a few edits turn one into the other. */
  ghost predicate IsNear(candidate: string, query: string) {
    var c := Lower(candidate);
    || Contains(c, query) || Contains(query, c)
    || exists script :: EditDistance.Turns(script, c, query) && |script| <= 2
  }

  lemma NearIff(candidate: string, query: string)
    ensures IsNear(candidate, query) <==>
              FitOf(candidate, query).rank <= 1 || FitOf(candidate, query).distance <= MOST_EDITS
  {
    var c := Lower(candidate);
    hide Lower, EditDistance.Distance, EditDistance.Turns;
    assert StartsWith(c, query) ==> OccursAt(c, query, 0);
    assert StartsWith(query, c) ==> OccursAt(query, c, 0);
    FindAbsent(c, query);
    FindAbsent(query, c);
    NearScript(c, query);
  }

  lemma NearScript(c: string, query: string)
    ensures EditDistance.Distance(c, query) <= MOST_EDITS <==>
              exists script :: EditDistance.Turns(script, c, query) && |script| <= MOST_EDITS
  {
    hide EditDistance.Distance, EditDistance.Turns;
    if EditDistance.Distance(c, query) <= MOST_EDITS {
      var script := EditDistance.CheapestScript(c, query);
    }
    forall script | EditDistance.Turns(script, c, query)
      ensures EditDistance.Distance(c, query) <= |script|
    {
      EditDistance.EveryScriptCostsDistance(script, c, query);
    }
  }

  /**
   * A command qualifies exactly when its name or an alias is near the query: a better rank of one
   * name never hides another name that is within reach.
   */
  lemma QualifiesIff(spec: Spec, query: string)
    ensures Qualifies(spec, query) <==>
              IsNear(spec.name, query) || exists a :: a in spec.aliases && IsNear(a, query)
  {
    hide IsNear, FitOf, BestFit;
    BestFitIsBest(spec.name, spec.aliases, query);
    NearIff(spec.name, query);
    forall a | a in spec.aliases
      ensures IsNear(a, query) <==> FitOf(a, query).rank <= 1 || FitOf(a, query).distance <= MOST_EDITS
    {
      NearIff(a, query);
    }
    RankAtMostTwo(spec.name, spec.aliases, query);
  }

  lemma RankAtMostTwo(name: string, others: seq<string>, query: string)
    ensures FitOf(name, query).rank <= 2
    ensures forall a :: a in others ==> FitOf(a, query).rank <= 2
  {
    hide EditDistance.Distance;
  }

  // --- Which are suggested ---

  lemma KeyOrder()
    ensures TotalOrder(KeyLe)
  {
    hide StringLe;
    StringOrder();
  }

  lemma {:induction false} KeysAreQualified(specs: seq<Spec>, query: string)
    ensures forall k :: k in Keys(specs, query) <==> exists s :: s in specs && Qualifies(s, query) && k == KeyOf(s, query)
  {
    hide Qualifies, KeyOf;
    if specs != [] {
      KeysAreQualified(specs[1..], query);
      assert forall s :: s in specs <==> s == specs[0] || s in specs[1..];
    }
  }

  /** The qualified commands, sorted. */
  ghost predicate Ranked(specs: seq<Spec>, query: string, sorted: seq<Key>) {
    && Sorted(sorted, KeyLe)
    && forall k :: k in sorted <==> exists s :: s in specs && Qualifies(s, query) && k == KeyOf(s, query)
  }

  lemma {:induction false} SortRanks(specs: seq<Spec>, query: string)
    ensures Ranked(specs, query, Sort(Keys(specs, query), KeyLe))
  {
    hide Qualifies, KeyOf, KeyLe;
    var keys := Keys(specs, query);
    KeysAreQualified(specs, query);
    KeyOrder();
    SortSorts(keys, KeyLe);
    SameElements(Sort(keys, KeyLe), keys);
  }

  lemma RankedQualify(specs: seq<Spec>, query: string, sorted: seq<Key>, i: nat)
    requires Ranked(specs, query, sorted) && i < |sorted|
    ensures exists s :: s in specs && Qualifies(s, query) && sorted[i] == KeyOf(s, query) && s.name == sorted[i].name
  {
    hide Qualifies, KeyOf, KeyLe;
    assert sorted[i] in sorted;
    var s :| s in specs && Qualifies(s, query) && sorted[i] == KeyOf(s, query);
    KeyName(s, query);
  }

  lemma RankedPlace(specs: seq<Spec>, query: string, sorted: seq<Key>, s: Spec) returns (p: nat)
    requires Ranked(specs, query, sorted) && s in specs && Qualifies(s, query)
    ensures p < |sorted| && sorted[p] == KeyOf(s, query) && sorted[p].name == s.name
    ensures forall i :: 0 <= i < p ==> KeyLe(sorted[i], sorted[p])
  {
    hide Qualifies, KeyOf, KeyLe;
    KeyName(s, query);
    assert KeyOf(s, query) in sorted;
    p :| 0 <= p < |sorted| && sorted[p] == KeyOf(s, query);
  }

  /**
   * The suggestions are the first of all qualified commands in ascending order: every one is qualified,
   * none is dropped or doubled, and one is left out only when the limit is reached by commands that
   * sort no later.
   */
  lemma {:induction false} SuggestionsAreBest(input: string, specs: seq<Spec>, limit: nat)
    returns (best: seq<Key>, others: seq<Key>)
    requires Query(input) != "" && limit > 0
    ensures Suggest(input, specs, limit) == Rendered(best) && Sorted(best + others, KeyLe)
    ensures multiset(best + others) == multiset(Keys(specs, Query(input)))
    ensures |best| <= limit && (others != [] ==> |best| == limit)
    ensures var query := Query(input);
            var r := Suggest(input, specs, limit);
            && |r| <= limit
            && (forall i :: 0 <= i < |r| ==>
                  exists s :: s in specs && Qualifies(s, query) && r[i] == "/" + s.name)
            && (forall s :: s in specs && Qualifies(s, query) && "/" + s.name !in r ==>
                  |r| == limit && forall i :: 0 <= i < limit ==> NoLater(specs, query, r[i], s))
  {
    var query := Query(input);
    best, others := SuggestSplit(input, specs, limit);
    hide Qualifies, KeyOf, KeyLe, Query, Keys, Sort, Ranked, Sorted, Suggest;
    var r := Suggest(input, specs, limit);
    forall i | 0 <= i < |r|
      ensures exists s :: s in specs && Qualifies(s, query) && r[i] == "/" + s.name
    {
      RankedQualify(specs, query, best + others, i);
    }
    forall s | s in specs && Qualifies(s, query) && "/" + s.name !in r
      ensures |r| == limit && forall i :: 0 <= i < limit ==> NoLater(specs, query, r[i], s)
    {
      var p := RankedPlace(specs, query, best + others, s);
      forall i | 0 <= i < |r|
        ensures NoLater(specs, query, r[i], s)
      {
        RankedQualify(specs, query, best + others, i);
      }
    }
  }

  lemma {:induction false} SuggestSplit(input: string, specs: seq<Spec>, limit: nat) returns (best: seq<Key>, others: seq<Key>)
    requires Query(input) != "" && limit > 0
    ensures Suggest(input, specs, limit) == Rendered(best) && Ranked(specs, Query(input), best + others)
    ensures multiset(best + others) == multiset(Keys(specs, Query(input)))
    ensures |best| <= limit && (others != [] ==> |best| == limit)
  {
    hide Query, Keys, Ranked, KeyLe, Sort, Rendered;
    var sorted := Sort(Keys(specs, Query(input)), KeyLe);
    SortRanks(specs, Query(input));
    var n := if limit < |sorted| then limit else |sorted|;
    best, others := sorted[..n], sorted[n..];
    assert best + others == sorted;
  }

  lemma KeyName(spec: Spec, query: string)
    ensures KeyOf(spec, query).name == spec.name
  {
  }

  /** The suggestion is of a qualified command that sorts no later than this one. */
  ghost predicate NoLater(specs: seq<Spec>, query: string, suggestion: string, spec: Spec) {
    exists s :: s in specs && Qualifies(s, query) && suggestion == "/" + s.name && KeyLe(KeyOf(s, query), KeyOf(spec, query))
  }

  // --- What the order means ---

  /** One text begins with the other. */
  ghost predicate Begins(start: string, text: string) {
    exists rest :: text == start + rest
  }

  lemma BeginsIff(start: string, text: string)
    ensures Begins(start, text) <==> StartsWith(text, start)
  {
    if StartsWith(text, start) {
      assert text == start + text[|start|..];
    }
    if rest :| text == start + rest {
      assert text[..|start|] == start;
    }
  }

  /** Rank 0 is one text beginning the other, rank 1 one inside the other, rank 2 everything else. */
  lemma RankMeans(candidate: string, query: string)
    ensures Rank(candidate, query) == 0 <==> Begins(query, candidate) || Begins(candidate, query)
    ensures Rank(candidate, query) <= 1 <==> Contains(candidate, query) || Contains(query, candidate)
    ensures Rank(candidate, query) <= 2
  {
    BeginsIff(query, candidate);
    BeginsIff(candidate, query);
    FindAbsent(candidate, query);
    FindAbsent(query, candidate);
    assert StartsWith(candidate, query) ==> OccursAt(candidate, query, 0);
    assert StartsWith(query, candidate) ==> OccursAt(query, candidate, 0);
  }

  /** A lower rank comes first, then fewer edits, then a shorter name, then the name itself. */
  lemma KeyLeDecided(a: Key, b: Key)
    ensures a.fit.rank < b.fit.rank ==> KeyLe(a, b) && !KeyLe(b, a)
    ensures a.fit.rank == b.fit.rank && a.fit.distance < b.fit.distance ==> KeyLe(a, b) && !KeyLe(b, a)
    ensures a.fit == b.fit && a.length < b.length ==> KeyLe(a, b) && !KeyLe(b, a)
    ensures a.fit == b.fit && a.length == b.length ==> (KeyLe(a, b) <==> StringLe(a.name, b.name))
  {
    hide StringLe;
  }

  /** What a command is sorted by: its best name's fit, and its own name. */
  lemma KeyMeans(spec: Spec, query: string)
    ensures var k := KeyOf(spec, query);
            && k.name == spec.name && k.length == |spec.name|
            && (exists c :: (c == spec.name || c in spec.aliases) && HasFit(c, query, k.fit))
            && (forall c, fit :: (c == spec.name || c in spec.aliases) && HasFit(c, query, fit) ==> !BetterFit(fit, k.fit))
  {
    hide FitOf, BestFit, HasFit;
    BestFitIsBest(spec.name, spec.aliases, query);
    var best := BestOf(spec, query);
    forall c | c == spec.name || c in spec.aliases
      ensures HasFit(c, query, FitOf(c, query)) && FitLe(best, FitOf(c, query))
      ensures forall fit :: HasFit(c, query, fit) ==> fit == FitOf(c, query)
    {
      FitMeans(c, query);
    }
  }

  predicate BetterFit(a: Fit, b: Fit) {
    a.rank < b.rank || (a.rank == b.rank && a.distance < b.distance)
  }

  /** The rank of the name in lower case, and the length of the shortest edit script that turns it into the query. */
  ghost predicate HasFit(candidate: string, query: string, fit: Fit) {
    var c := Lower(candidate);
    && fit.rank == (if Begins(query, c) || Begins(c, query) then 0
                    else if Contains(c, query) || Contains(query, c) then 1 else 2)
    && (exists script :: EditDistance.Turns(script, c, query) && |script| == fit.distance)
    && (forall script :: EditDistance.Turns(script, c, query) ==> fit.distance <= |script|)
  }

  lemma FitMeans(candidate: string, query: string)
    ensures HasFit(candidate, query, FitOf(candidate, query))
    ensures forall fit :: HasFit(candidate, query, fit) ==> fit == FitOf(candidate, query)
  {
    var c := Lower(candidate);
    hide EditDistance.Distance, EditDistance.Turns, Lower, Rank, Begins, Contains;
    RankMeans(c, query);
    var cheapest := EditDistance.CheapestScript(c, query);
    forall script | EditDistance.Turns(script, c, query)
      ensures EditDistance.Distance(c, query) <= |script|
    {
      EditDistance.EveryScriptCostsDistance(script, c, query);
    }
  }

  /** The query is the name typed, in lower case and without the space around it and the slashes in front of it. */
  lemma QueryIs(a: string, slashes: string, name: string, b: string)
    requires AllSpace(a) && AllSpace(b) && AllAre(slashes, '/') && IsTrimmed(slashes + name)
    requires name != "" ==> name[0] != '/'
    ensures Query(a + (slashes + name + b)) == Lower(name)
  {
    hide Trim, TrimStartMatches, Lower;
    SurroundingsTrimmed(a, slashes + name, b);
    MatchesDropped(slashes, name, '/');
  }

  /** Nothing is suggested for slashes and space alone, or when nothing may be. */
  lemma NothingSuggested(a: string, slashes: string, b: string, specs: seq<Spec>, limit: nat)
    requires AllSpace(a) && AllSpace(b) && AllAre(slashes, '/')
    ensures Suggest(a + (slashes + "" + b), specs, limit) == [] && forall input :: Suggest(input, specs, 0) == []
  {
    hide Query, Keys, IsWhitespace;
    assert IsTrimmed(slashes + "") by {
      SlashesTrimmed(slashes);
    }
    QueryIs(a, slashes, "", b);
  }

  lemma SlashesTrimmed(slashes: string)
    requires AllAre(slashes, '/')
    ensures IsTrimmed(slashes + "")
  {
    assert slashes + "" == slashes;
  }
}
