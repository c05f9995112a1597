/** Detecting lanes that lock overlapping modules of a branch. */
module BranchLock {
  import opened Sorting
  import opened Text

  datatype Intent = Intent(laneId: string, branch: string, modules: seq<string>)

  /** The lane ids are those of the earlier and of the later intent. */
  datatype Collision = Collision(branch: string, scope: string, left: string, right: string)

  predicate ModulesOverlap(left: string, right: string) {
    left == right || StartsWith(left, right + "/") || StartsWith(right, left + "/")
  }

  function SharedScope(left: string, right: string): string {
    if StartsWith(left, right + "/") || left == right then right else left
  }

  // --- Modules as paths ---

  /** The pieces of a module between slashes. */
  function Components(m: string): (r: seq<string>)
    ensures r != []
    ensures m != "" && m[0] != '/' ==> r[0] != ""
  {
    if m == "" then [""]
    else
      var rest := Components(m[1..]);
      if m[0] == '/' then [""] + rest else [[m[0]] + rest[0]] + rest[1..]
  }

  predicate IsPrefix(a: seq<string>, b: seq<string>) {
    |a| <= |b| && b[..|a|] == a
  }

  /** One module is the other, or lies below it. */
  predicate Above(a: string, b: string) {
    a == b || StartsWith(b, a + "/")
  }

  /** Adding a character in front, to both: prefixes stay prefixes. */
  lemma PrefixStep(c: char, a: seq<string>, b: seq<string>)
    requires a != [] && b != []
    ensures IsPrefix([""] + a, [""] + b) <==> IsPrefix(a, b)
    ensures IsPrefix([[c] + a[0]] + a[1..], [[c] + b[0]] + b[1..]) <==> IsPrefix(a, b)
  {
    if |a| <= |b| {
      assert ([""] + b)[..|a| + 1] == [""] + b[..|a|];
      assert ([[c] + b[0]] + b[1..])[..|a|] == [[c] + b[0]] + b[..|a|][1..];
      assert b[..|a|] == [b[0]] + b[..|a|][1..] && a == [a[0]] + a[1..];
      assert ([c] + a[0])[1..] == a[0] && ([c] + b[0])[1..] == b[0];
      if [""] + b[..|a|] == [""] + a {
        assert ([""] + a)[1..] == a && ([""] + b[..|a|])[1..] == b[..|a|];
      }
      if [[c] + b[0]] + b[..|a|][1..] == [[c] + a[0]] + a[1..] {
        assert ([[c] + a[0]] + a[1..])[1..] == a[1..];
        assert ([[c] + b[0]] + b[..|a|][1..])[1..] == b[..|a|][1..];
      }
    }
  }

  lemma FirstDiffers(a: seq<string>, b: seq<string>)
    requires a != [] && b != [] && a[0] != b[0]
    ensures !IsPrefix(a, b)
  {
    assert |a| <= |b| ==> b[..|a|][0] == b[0];
  }

  lemma AboveStep(a: string, b: string)
    requires a != "" && b != ""
    ensures Above(a, b) <==> a[0] == b[0] && Above(a[1..], b[1..])
  {
    assert (a + "/")[0] == a[0] && (a + "/")[1..] == a[1..] + "/";
    assert a == [a[0]] + a[1..] && b == [b[0]] + b[1..];
    if |a| + 1 <= |b| {
      assert b[..|a| + 1] == [b[0]] + b[1..][..|a|];
    }
  }

  lemma {:induction false} AboveIffPrefix(a: string, b: string)
    ensures Above(a, b) <==> IsPrefix(Components(a), Components(b))
  {
    hide IsPrefix, Above;
    if a == "" {
      EmptyAbove(b);
    } else if b == "" {
      AboveEmpty(a);
    } else {
      AboveStep(a, b);
      AboveIffPrefix(a[1..], b[1..]);
      var x, y := Components(a[1..]), Components(b[1..]);
      if a[0] == b[0] {
        PrefixStep(a[0], x, y);
      } else {
        HeadsDiffer(a, b);
        FirstDiffers(Components(a), Components(b));
      }
    }
  }

  lemma HeadsDiffer(a: string, b: string)
    requires a != "" && b != "" && a[0] != b[0]
    ensures Components(a)[0] != Components(b)[0]
  {
    if a[0] != '/' && b[0] != '/' {
      assert Components(a)[0][0] == a[0] && Components(b)[0][0] == b[0];
    }
  }

  lemma EmptyAbove(b: string)
    ensures Above("", b) <==> IsPrefix(Components(""), Components(b))
  {
    assert "" + "/" == "/";
    var c := Components(b);
    assert c[..1] == [c[0]];
    if b != "" {
      assert b[..1] == [b[0]];
    }
  }

  lemma AboveEmpty(a: string)
    requires a != ""
    ensures Above(a, "") <==> IsPrefix(Components(a), Components(""))
  {
    var c := Components(a);
    if a[0] == '/' {
      assert |c| > 1;
    } else {
      FirstDiffers(c, [""]);
    }
  }

  /**
   * Two modules overlap exactly when the components of one are a prefix of the other's; the shared
   * scope is then that ancestor, whichever way round the two are taken.
   */
  lemma OverlapIsAncestry(left: string, right: string)
    ensures ModulesOverlap(left, right) <==>
              IsPrefix(Components(left), Components(right)) || IsPrefix(Components(right), Components(left))
    ensures IsPrefix(Components(left), Components(right)) ==> SharedScope(left, right) == left
    ensures IsPrefix(Components(right), Components(left)) ==> SharedScope(left, right) == right
  {
    AboveIffPrefix(left, right);
    AboveIffPrefix(right, left);
  }

  // --- Collisions ---

  ghost predicate SharesScope(left: seq<string>, right: seq<string>, scope: string) {
    exists l, r :: l in left && r in right && ScopeOf(l, r, scope)
  }

  /** The scope is the one of the two modules that is the ancestor of the other. */
  predicate ScopeOf(l: string, r: string, scope: string) {
    || (scope == l && IsPrefix(Components(l), Components(r)))
    || (scope == r && IsPrefix(Components(r), Components(l)))
  }

  lemma ScopeOfIff(l: string, r: string, scope: string)
    ensures ModulesOverlap(l, r) && SharedScope(l, r) == scope <==> ScopeOf(l, r, scope)
  {
    hide IsPrefix, Components, ModulesOverlap, SharedScope;
    OverlapIsAncestry(l, r);
  }

  function Key(c: Collision): seq<string> {
    [c.branch, c.scope, c.left, c.right]
  }

  predicate CollisionLe(a: Collision, b: Collision) {
    ListLe(Key(a), Key(b))
  }

  /** Collisions are sorted by branch, then by scope, then by the earlier lane, then by the later. */
  lemma CollisionLeDecided(a: Collision, b: Collision)
    ensures a.branch != b.branch ==> (CollisionLe(a, b) <==> StringLe(a.branch, b.branch))
    ensures a.branch == b.branch && a.scope != b.scope ==> (CollisionLe(a, b) <==> StringLe(a.scope, b.scope))
    ensures a.branch == b.branch && a.scope == b.scope && a.left != b.left ==>
              (CollisionLe(a, b) <==> StringLe(a.left, b.left))
    ensures a.branch == b.branch && a.scope == b.scope && a.left == b.left && a.right != b.right ==>
              (CollisionLe(a, b) <==> StringLe(a.right, b.right))
  {
    hide StringLe, LexLe;
    var k, l := Key(a), Key(b);
    ListStep(k, l);
    ListStep(k[1..], l[1..]);
    ListStep(k[1..][1..], l[1..][1..]);
    ListStep(k[1..][1..][1..], l[1..][1..][1..]);
    assert k[1..] == [a.scope, a.left, a.right] && l[1..] == [b.scope, b.left, b.right];
    assert k[1..][1..] == [a.left, a.right] && l[1..][1..] == [b.left, b.right];
    assert k[1..][1..][1..] == [a.right] && l[1..][1..][1..] == [b.right];
  }

  lemma ListStep(a: seq<string>, b: seq<string>)
    requires a != [] && b != []
    ensures LexLe(a, b, StringLe) == if a[0] == b[0] then LexLe(a[1..], b[1..], StringLe) else StringLe(a[0], b[0])
  {
    hide StringLe;
  }

  lemma CollisionOrder()
    ensures TotalOrder(CollisionLe)
  {
    hide ListLe;
    ListOrder();
    forall a, b
      ensures CollisionLe(a, b) || CollisionLe(b, a)
      ensures CollisionLe(a, b) && CollisionLe(b, a) ==> a == b
    {
      assert Key(a) == Key(b) ==> Key(a)[0] == Key(b)[0] && Key(a)[1] == Key(b)[1]
                                  && Key(a)[2] == Key(b)[2] && Key(a)[3] == Key(b)[3];
    }
    forall a, b, c | CollisionLe(a, b) && CollisionLe(b, c)
      ensures CollisionLe(a, c)
    {
      assert ListLe(Key(a), Key(b)) && ListLe(Key(b), Key(c));
    }
  }

  /** The scopes two lists of modules share, each once, in order. */
  method OverlappingModules(left: seq<string>, right: seq<string>) returns (overlaps: seq<string>)
    ensures forall scope :: scope in overlaps <==> SharesScope(left, right, scope)
    ensures StrictlySorted(overlaps, StringLe)
  {
    hide IsPrefix, Components, ModulesOverlap, SharedScope, ScopeOf, StringLe, SharesScope, OneShares;
    overlaps := [];
    NothingOneShares();
    NothingShared(right);
    for i := 0 to |left|
      invariant forall scope :: scope in overlaps <==> SharesScope(left[..i], right, scope)
    {
      ghost var before := overlaps;
      for j := 0 to |right|
        invariant forall scope :: scope in overlaps <==>
                    scope in before || OneShares(left[i], right[..j], scope)
      {
        ScopeOfAll(left[i], right[j]);
        OneSharesSnoc(left[i], right[..j], right[j]);
        assert right[..j + 1] == right[..j] + [right[j]];
        if ModulesOverlap(left[i], right[j]) {
          overlaps := overlaps + [SharedScope(left[i], right[j])];
        }
      }
      assert right[..|right|] == right && left[..i + 1] == left[..i] + [left[i]];
      SharesScopeSnoc(left[..i], left[i], right);
      assert forall scope :: scope in overlaps <==>
          scope in before || OneShares(left[i], right, scope);
    }
    assert left[..|left|] == left;
    StringOrder();
    SortDedup(overlaps, StringLe);
    overlaps := Sort(overlaps, StringLe);
    overlaps := Dedup(overlaps);
  }

  ghost predicate OneShares(l: string, right: seq<string>, scope: string) {
    exists r :: r in right && ScopeOf(l, r, scope)
  }

  lemma NothingOneShares()
    ensures forall l, scope :: !OneShares(l, [], scope)
  {
  }

  lemma OneSharesSnoc(l: string, right: seq<string>, r: string)
    ensures forall scope :: OneShares(l, right + [r], scope) <==> OneShares(l, right, scope) || ScopeOf(l, r, scope)
  {
    hide ScopeOf;
    assert forall m :: m in right + [r] <==> m in right || m == r;
  }

  lemma NothingShared(right: seq<string>)
    ensures forall scope :: !SharesScope([], right, scope)
  {
  }

  lemma SharesScopeSnoc(left: seq<string>, l: string, right: seq<string>)
    ensures forall scope :: SharesScope(left + [l], right, scope) <==>
              SharesScope(left, right, scope) || OneShares(l, right, scope)
  {
    hide ScopeOf;
    assert forall m :: m in left + [l] <==> m in left || m == l;
  }

  lemma ScopeOfAll(l: string, r: string)
    ensures forall scope :: ScopeOf(l, r, scope) <==> ModulesOverlap(l, r) && SharedScope(l, r) == scope
  {
    forall scope
      ensures ScopeOf(l, r, scope) <==> ModulesOverlap(l, r) && SharedScope(l, r) == scope
    {
      ScopeOfIff(l, r, scope);
    }
  }

  /** Two intents, the earlier one first, lock modules of the branch with this scope in common. */
  ghost predicate Collide(a: Intent, b: Intent, c: Collision) {
    && a.branch == b.branch == c.branch && c.left == a.laneId && c.right == b.laneId
    && SharesScope(a.modules, b.modules, c.scope)
  }

  ghost predicate CollidesFrom(intents: seq<Intent>, i: nat, c: Collision)
    requires i < |intents|
  {
    exists j :: i < j < |intents| && Collide(intents[i], intents[j], c)
  }

  ghost predicate CollidesBelow(intents: seq<Intent>, n: nat, c: Collision)
    requires n <= |intents|
  {
    exists k: nat :: k < n && CollidesFrom(intents, k, c)
  }

  lemma CollidesBelowNone(intents: seq<Intent>)
    ensures forall c :: !CollidesBelow(intents, 0, c)
  {
  }

  lemma CollidesBelowNext(intents: seq<Intent>, n: nat)
    requires n < |intents|
    ensures forall c :: CollidesBelow(intents, n + 1, c) <==>
              CollidesBelow(intents, n, c) || CollidesFrom(intents, n, c)
  {
    hide CollidesFrom;
  }

  lemma CollidesBelowAll(intents: seq<Intent>)
    ensures forall c :: CollidesBelow(intents, |intents|, c) <==> Collides(intents, c)
  {
    hide Collide;
    forall c
      ensures CollidesBelow(intents, |intents|, c) <==> Collides(intents, c)
    {
      if i: nat, j: nat :| i < j < |intents| && Collide(intents[i], intents[j], c) {
        assert CollidesFrom(intents, i, c);
      }
    }
  }

  ghost predicate Collides(intents: seq<Intent>, c: Collision) {
    exists i, j :: 0 <= i < j < |intents| && Collide(intents[i], intents[j], c)
  }

  /**
   * Sound, complete and canonical: a collision is reported exactly when two intents collide, and the
   * report is in strictly ascending order.
   */
  method DetectBranchLockCollisions(intents: seq<Intent>) returns (collisions: seq<Collision>)
    ensures forall c :: c in collisions <==> Collides(intents, c)
    ensures StrictlySorted(collisions, CollisionLe)
  {
    hide SharesScope, CollisionLe, StringLe, CollidesBelow, Collides;
    collisions := [];
    CollidesBelowNone(intents);
    for i := 0 to |intents|
      invariant forall c :: c in collisions <==> CollidesBelow(intents, i, c)
    {
      ghost var before := collisions;
      for j := i + 1 to |intents|
        invariant forall c :: c in collisions <==>
                    c in before || exists k :: i < k < j && Collide(intents[i], intents[k], c)
      {
        if intents[i].branch == intents[j].branch {
          var overlaps := OverlappingModules(intents[i].modules, intents[j].modules);
          ghost var sofar := collisions;
          for k := 0 to |overlaps|
            invariant forall c :: c in collisions <==>
                        c in sofar || (c.scope in overlaps[..k] && Pair(intents[i], intents[j], c))
          {
            assert overlaps[..k + 1] == overlaps[..k] + [overlaps[k]];
            collisions := collisions
              + [Collision(intents[i].branch, overlaps[k], intents[i].laneId, intents[j].laneId)];
          }
          assert overlaps[..|overlaps|] == overlaps;
        }
      }
      assert forall c :: c in collisions <==> c in before || CollidesFrom(intents, i, c);
      CollidesBelowNext(intents, i);
    }
    CollidesBelowAll(intents);
    CollisionOrder();
    SortDedup(collisions, CollisionLe);
    collisions := Sort(collisions, CollisionLe);
    collisions := Dedup(collisions);
  }

  predicate Pair(a: Intent, b: Intent, c: Collision) {
    a.branch == b.branch == c.branch && c.left == a.laneId && c.right == b.laneId
  }

  // --- Reordering the intents ---

  function Swapped(c: Collision): Collision {
    c.(left := c.right, right := c.left)
  }

  lemma CollideSwapped(a: Intent, b: Intent, c: Collision)
    requires Collide(a, b, c)
    ensures Collide(b, a, Swapped(c))
  {
    hide IsPrefix, Components;
    var l, r :| l in a.modules && r in b.modules && ScopeOf(l, r, c.scope);
    assert ScopeOf(r, l, c.scope);
  }

  /** Two places of one list have two places in any reordering of it. */
  lemma PlacesMoved<T>(s: seq<T>, t: seq<T>, i: nat, j: nat) returns (p: nat, q: nat)
    requires multiset(s) == multiset(t) && i < j < |s|
    ensures p < |t| && q < |t| && p != q && t[p] == s[i] && t[q] == s[j]
  {
    assert s[i] in multiset(s) && s[j] in multiset(s);
    assert s[i] in t && s[j] in t;
    p :| 0 <= p < |t| && t[p] == s[i];
    if s[i] != s[j] {
      q :| 0 <= q < |t| && t[q] == s[j];
    } else {
      TwicePresent(s, i, j);
      var rest := t[..p] + t[p + 1..];
      assert t == t[..p] + [t[p]] + t[p + 1..];
      assert multiset(rest)[s[i]] == multiset(t)[s[i]] - 1;
      assert s[i] in rest;
      var k :| 0 <= k < |rest| && rest[k] == s[i];
      q := if k < p then k else k + 1;
    }
  }

  lemma TwicePresent<T>(s: seq<T>, i: nat, j: nat)
    requires i < j < |s| && s[i] == s[j]
    ensures multiset(s)[s[i]] >= 2
  {
    assert s == s[..i] + [s[i]] + s[i + 1..j] + [s[j]] + s[j + 1..];
  }

  /** Reordering the intents changes the report only by swapping the lanes of some collisions. */
  lemma OrderOnlySwapsLanes(intents: seq<Intent>, others: seq<Intent>, c: Collision)
    requires multiset(intents) == multiset(others) && Collides(intents, c)
    ensures Collides(others, c) || Collides(others, Swapped(c))
  {
    hide Collide;
    var i: nat, j: nat :| i < j < |intents| && Collide(intents[i], intents[j], c);
    var p, q := PlacesMoved(intents, others, i, j);
    CollideSwapped(intents[i], intents[j], c);
  }

  /** The report is determined by which intents collide. */
  lemma ReportUnique(intents: seq<Intent>, others: seq<Intent>, a: seq<Collision>, b: seq<Collision>)
    requires StrictlySorted(a, CollisionLe) && StrictlySorted(b, CollisionLe)
    requires forall c :: c in a <==> Collides(intents, c)
    requires forall c :: c in b <==> Collides(others, c)
    ensures (forall c :: Collides(intents, c) <==> Collides(others, c)) ==> a == b
  {
    hide CollisionLe, Collides;
    CollisionOrder();
    if forall c :: Collides(intents, c) <==> Collides(others, c) {
      StrictlySortedUnique(a, b, CollisionLe);
    }
  }
}
