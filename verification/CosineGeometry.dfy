/** What the score of two vectors means: the inner product by its laws, and the direction of a vector. */
module CosineGeometry {
  import opened VectorSearch

  // --- The inner product by its laws ---

  function Plus(a: Vector, b: Vector): (r: Vector)
    requires |a| == |b|
    ensures |r| == |a|
  {
    if a == [] then [] else [a[0] + b[0]] + Plus(a[1..], b[1..])
  }

  function Times(k: real, a: Vector): (r: Vector)
    ensures |r| == |a|
  {
    if a == [] then [] else [k * a[0]] + Times(k, a[1..])
  }

  lemma {:induction false} PlusAt(a: Vector, b: Vector, i: nat)
    requires |a| == |b| && i < |a|
    ensures Plus(a, b)[i] == a[i] + b[i]
  {
    if i > 0 {
      PlusAt(a[1..], b[1..], i - 1);
    }
  }

  lemma {:induction false} TimesAt(k: real, a: Vector, i: nat)
    requires i < |a|
    ensures Times(k, a)[i] == k * a[i]
  {
    if i > 0 {
      TimesAt(k, a[1..], i - 1);
    }
  }

  /** The `i`-th unit vector of `n` coordinates. */
  function Unit(n: nat, i: int): (r: Vector)
    ensures |r| == n && forall j :: 0 <= j < n ==> r[j] == if j == i then 1.0 else 0.0
  {
    if n == 0 then [] else [if i == 0 then 1.0 else 0.0] + Unit(n - 1, i - 1)
  }

  lemma {:induction false} DotSymmetric(a: Vector, b: Vector)
    requires |a| == |b|
    ensures Dot(a, b) == Dot(b, a)
  {
    if a != [] {
      DotSymmetric(a[1..], b[1..]);
    }
  }

  lemma {:induction false} DotAdditive(a: Vector, b: Vector, c: Vector)
    requires |a| == |b| == |c|
    ensures Dot(Plus(a, b), c) == Dot(a, c) + Dot(b, c)
  {
    if a != [] {
      DotAdditive(a[1..], b[1..], c[1..]);
      Distributes(a[0], b[0], c[0]);
    }
  }

  lemma Distributes(x: real, y: real, z: real)
    ensures (x + y) * z == x * z + y * z
  {
  }

  lemma {:induction false} DotHomogeneous(k: real, a: Vector, b: Vector)
    requires |a| == |b|
    ensures Dot(Times(k, a), b) == k * Dot(a, b)
  {
    if a != [] {
      DotHomogeneous(k, a[1..], b[1..]);
      Factored(k, a[0], b[0], Dot(a[1..], b[1..]));
    }
  }

  lemma Factored(k: real, x: real, y: real, d: real)
    ensures (k * x) * y + k * d == k * (x * y + d)
  {
    assert (k * x) * y == k * (x * y);
  }

  /** Multiplied with a unit vector, a vector gives one coordinate. */
  lemma {:induction false} DotUnit(b: Vector, i: nat)
    requires i < |b|
    ensures Dot(Unit(|b|, i), b) == b[i]
  {
    if i == 0 {
      DotNoUnit(b[1..], -1);
    } else {
      DotUnit(b[1..], i - 1);
    }
  }

  lemma {:induction false} DotNoUnit(b: Vector, i: int)
    requires i < 0
    ensures Dot(Unit(|b|, i), b) == 0.0
  {
    if b != [] {
      DotNoUnit(b[1..], i - 1);
    }
  }

  /** A coordinate that is not zero. */
  ghost predicate NonZero(a: Vector) {
    exists i :: 0 <= i < |a| && a[i] != 0.0
  }

  lemma {:induction false} NonZeroIff(a: Vector)
    ensures NonZero(a) <==> Dot(a, a) > 0.0
    ensures !NonZero(a) <==> Dot(a, a) == 0.0
  {
    SquaresSum(a);
    if a != [] {
      var t := a[1..];
      NonZeroIff(t);
      SquaresSum(t);
      NonZeroSplit(a);
      SumOfSquares(a[0], Dot(t, t), Dot(a, a));
    }
  }

  lemma PositiveProduct(x: real, y: real, z: real)
    requires x > 0.0 && y > 0.0 && z == x * y
    ensures z > 0.0
  {
  }

  lemma NegativeProduct(x: real, y: real, z: real)
    requires x < 0.0 && y < 0.0 && z == x * y
    ensures z > 0.0
  {
  }

  lemma SquareIs(x: real, z: real)
    requires z == x * x
    ensures x == 0.0 <==> z == 0.0
    ensures x != 0.0 <==> z > 0.0
  {
    if x > 0.0 {
      PositiveProduct(x, x, z);
    } else if x < 0.0 {
      NegativeProduct(x, x, z);
    }
  }

  lemma SumOfSquares(x: real, d: real, sum: real)
    requires sum == x * x + d && d >= 0.0
    ensures sum >= 0.0
    ensures x != 0.0 || d > 0.0 <==> sum > 0.0
  {
    SquareIs(x, sum - d);
  }

  lemma NonZeroSplit(a: Vector)
    requires a != []
    ensures NonZero(a) <==> a[0] != 0.0 || NonZero(a[1..])
  {
    var t := a[1..];
    assert a == [a[0]] + t;
    if NonZero(t) {
      var i :| 0 <= i < |t| && t[i] != 0.0;
      assert a[i + 1] == t[i];
    }
    if NonZero(a) {
      var i :| 0 <= i < |a| && a[i] != 0.0;
      assert i > 0 ==> a[i] == t[i - 1];
    }
  }

  // --- The score ---

  lemma NormPositive(a: Vector, root: real -> real)
    requires IsRoot(root) && NonZero(a)
    ensures Dot(a, a) > 0.0 && root(Dot(a, a)) > 0.0 && root(Dot(a, a)) * root(Dot(a, a)) == Dot(a, a)
  {
    NonZeroIff(a);
  }

  /** The score is the inner product measured by both norms. */
  lemma ScoreTimesNorms(a: Vector, b: Vector, root: real -> real)
    requires IsRoot(root) && |a| == |b| && NonZero(a) && NonZero(b)
    ensures CosineSimilarity(a, b, root) * (root(Dot(a, a)) * root(Dot(b, b))) == Dot(a, b)
  {
    hide Dot, NonZero;
    EmptyHasNoDirection(a);
    NormPositive(a, root);
    NormPositive(b, root);
    Positive(root(Dot(a, a)), root(Dot(b, b)));
    DivideMultiply(Dot(a, b), root(Dot(a, a)) * root(Dot(b, b)));
  }

  lemma DivideMultiply(d: real, n: real)
    requires n != 0.0
    ensures d / n * n == d
  {
  }

  /** Without two directions to compare the score is 0. */
  lemma NoDirection(a: Vector, b: Vector, root: real -> real)
    requires IsRoot(root) && (|a| != |b| || !NonZero(a) || !NonZero(b))
    ensures CosineSimilarity(a, b, root) == 0.0
  {
    NonZeroIff(a);
    NonZeroIff(b);
    RootOfZero(root);
  }

  lemma RootOfZero(root: real -> real)
    requires IsRoot(root)
    ensures root(0.0) == 0.0
  {
    SquareIs(root(0.0), 0.0);
  }

  /** Two scores are the same when they measure the same product by the same norms. */
  lemma ScoreDetermined(s: real, t: real, n: real)
    requires n != 0.0 && s * n == t * n
    ensures s == t
  {
    if s != t {
      Distributes(s, -t, n);
      Distributes(t, -t, n);
      NonZeroProduct(s - t, n);
    }
  }

  /** The score is symmetric. */
  lemma ScoreSymmetric(a: Vector, b: Vector, root: real -> real)
    ensures CosineSimilarity(a, b, root) == CosineSimilarity(b, a, root)
  {
    if |a| == |b| {
      DotSymmetric(a, b);
      Commutes(root(Dot(a, a)), root(Dot(b, b)));
    }
  }

  lemma Commutes(x: real, y: real)
    ensures x * y == y * x
  {
  }

  lemma DotTimesRight(k: real, a: Vector, b: Vector)
    requires |a| == |b|
    ensures Dot(a, Times(k, b)) == k * Dot(a, b)
  {
    hide Dot, Times, Plus;
    DotSymmetric(a, Times(k, b));
    DotHomogeneous(k, b, a);
    DotSymmetric(a, b);
  }

  lemma NormTimes(k: real, b: Vector)
    ensures Dot(Times(k, b), Times(k, b)) == (k * k) * Dot(b, b)
  {
    hide Dot, Times, Plus;
    DotHomogeneous(k, b, Times(k, b));
    DotTimesRight(k, b, b);
    assert k * (k * Dot(b, b)) == (k * k) * Dot(b, b);
  }

  /** The opposite vector has the opposite score. */
  lemma OppositeScore(a: Vector, b: Vector, root: real -> real)
    requires IsRoot(root)
    ensures CosineSimilarity(a, Times(-1.0, b), root) == -CosineSimilarity(a, b, root)
  {
    hide Dot, Times, NonZero;
    if |a| == |b| {
      OppositeNorm(b);
      DotTimesRight(-1.0, a, b);
      if NonZero(a) && NonZero(b) {
        NormPositive(a, root);
        NormPositive(b, root);
        Positive(root(Dot(a, a)), root(Dot(b, b)));
        NegatedQuotient(Dot(a, b), root(Dot(a, a)) * root(Dot(b, b)));
      } else {
        NoDirection(a, b, root);
        NonZeroIff(a);
        NonZeroIff(b);
        NonZeroIff(Times(-1.0, b));
        NoDirection(a, Times(-1.0, b), root);
      }
    }
  }

  lemma OppositeNorm(b: Vector)
    ensures Dot(Times(-1.0, b), Times(-1.0, b)) == Dot(b, b)
  {
    hide Dot, Times;
    NormTimes(-1.0, b);
  }

  lemma NegatedQuotient(d: real, n: real)
    requires n != 0.0
    ensures (-d) / n == -(d / n)
  {
  }

  // --- The score 1 is sameness of direction ---

  /** `b` is a positive multiple of `a`. */
  ghost predicate SameDirection(a: Vector, b: Vector) {
    exists k: real :: k > 0.0 && b == Times(k, a)
  }

  ghost predicate OppositeDirection(a: Vector, b: Vector) {
    exists k: real :: k < 0.0 && b == Times(k, a)
  }

  /** `(pb + qa)(pb + qa) = p(p(bb) + q(ab)) + q(p(ab) + q(aa))` */
  lemma CombinationNorm(p: real, q: real, a: Vector, b: Vector)
    requires |a| == |b|
    ensures var c := Plus(Times(p, b), Times(q, a));
            Dot(c, c) == p * (p * Dot(b, b) + q * Dot(a, b)) + q * (p * Dot(a, b) + q * Dot(a, a))
  {
    hide Dot, Times, Plus;
    var c := Plus(Times(p, b), Times(q, a));
    DotAdditive(Times(p, b), Times(q, a), c);
    DotHomogeneous(p, b, c);
    DotHomogeneous(q, a, c);
    WithCombination(p, q, a, b, b);
    WithCombination(p, q, a, b, a);
    DotSymmetric(a, b);
  }

  lemma WithCombination(p: real, q: real, a: Vector, b: Vector, x: Vector)
    requires |a| == |b| == |x|
    ensures Dot(x, Plus(Times(p, b), Times(q, a))) == p * Dot(x, b) + q * Dot(x, a)
  {
    hide Dot, Times, Plus;
    var c := Plus(Times(p, b), Times(q, a));
    DotSymmetric(x, c);
    DotAdditive(Times(p, b), Times(q, a), x);
    DotHomogeneous(p, b, x);
    DotHomogeneous(q, a, x);
    DotSymmetric(x, a);
    DotSymmetric(x, b);
  }

  lemma RemainderVanishes(aa: real, ab: real, bb: real, q: real)
    requires ab * ab == aa * bb && q + ab == 0.0
    ensures aa * (aa * bb + q * ab) + q * (aa * ab + q * aa) == 0.0
  {
    Distributes(q, ab, ab);
    Distributes(q, ab, aa);
    Commutes(ab, aa);
    assert aa * bb + q * ab == 0.0;
    assert aa * ab + q * aa == 0.0;
  }

  /** Equality in the inequality of Cauchy and Schwarz: one vector is a multiple of the other. */
  lemma EqualityCase(a: Vector, b: Vector)
    requires |a| == |b| && NonZero(a) && Dot(a, b) * Dot(a, b) == Dot(a, a) * Dot(b, b)
    ensures Dot(a, a) > 0.0 && b == Times(Dot(a, b) / Dot(a, a), a)
  {
    hide Dot, Times, NonZero;
    NonZeroIff(a);
    var k := Dot(a, b) / Dot(a, a);
    forall i | 0 <= i < |a|
      ensures b[i] == Times(k, a)[i]
    {
      EqualCoordinate(a, b, -Dot(a, b), i);
      Solve(Dot(a, a), Dot(a, b), b[i], a[i]);
      TimesAt(k, a, i);
    }
  }

  /** What is left of `b`, scaled by `dot(a, a)`, without its part along `a` is nothing. */
  lemma EqualCoordinate(a: Vector, b: Vector, q: real, i: nat)
    requires |a| == |b| && i < |a| && Dot(a, b) * Dot(a, b) == Dot(a, a) * Dot(b, b) && q + Dot(a, b) == 0.0
    ensures Dot(a, a) * b[i] + q * a[i] == 0.0
  {
    hide Dot, Times, Plus, NonZero;
    var p := Dot(a, a);
    CombinationNorm(p, q, a, b);
    RemainderVanishes(p, Dot(a, b), Dot(b, b), q);
    NonZeroIff(Plus(Times(p, b), Times(q, a)));
    CombinationAt(p, q, a, b, i);
    ZeroAt(Plus(Times(p, b), Times(q, a)), i);
  }

  lemma ZeroAt(a: Vector, i: nat)
    requires i < |a| && !NonZero(a)
    ensures a[i] == 0.0
  {
  }

  lemma CombinationAt(p: real, q: real, a: Vector, b: Vector, i: nat)
    requires |a| == |b| && i < |a|
    ensures Plus(Times(p, b), Times(q, a))[i] == p * b[i] + q * a[i]
  {
    hide Times, Plus;
    PlusAt(Times(p, b), Times(q, a), i);
    TimesAt(p, b, i);
    TimesAt(q, a, i);
  }

  lemma Solve(p: real, q: real, y: real, x: real)
    requires p > 0.0 && p * y + (-q) * x == 0.0
    ensures y == q / p * x
  {
    DivideMultiply(q, p);
    SolveBy(p, q, q / p, y, x);
  }

  lemma SolveBy(p: real, q: real, k: real, y: real, x: real)
    requires p > 0.0 && p * y + (-q) * x == 0.0 && k * p == q
    ensures y == k * x
  {
    Distributes(q, -q, x);
    Commutes(k, p);
    Associates(p, k, x);
    Commutes(p, y);
    Commutes(p, k * x);
    ScoreDetermined(y, k * x, p);
  }

  lemma RootOfSquare(root: real -> real, x: real, xx: real)
    requires IsRoot(root) && x >= 0.0 && x * x == xx
    ensures root(xx) == x
  {
    Square(x);
    var r := root(xx);
    if r < x {
      StrictSquare(r, x);
    } else if x < r {
      StrictSquare(x, r);
    }
  }

  /** A score of 1 means sameness of direction. */
  lemma ScoreOneIff(a: Vector, b: Vector, root: real -> real)
    requires IsRoot(root) && |a| == |b| && NonZero(a) && NonZero(b)
    ensures CosineSimilarity(a, b, root) == 1.0 <==> SameDirection(a, b)
  {
    NormPositive(a, root);
    NormPositive(b, root);
    ScoreTimesNorms(a, b, root);
    var na, nb := root(Dot(a, a)), root(Dot(b, b));
    Positive(na, nb);
    if CosineSimilarity(a, b, root) == 1.0 {
      ProductOfSquares(na, nb);
      EqualityCase(a, b);
      PositiveQuotient(Dot(a, b), Dot(a, a));
    }
    if SameDirection(a, b) {
      var k: real :| k > 0.0 && b == Times(k, a);
      MultipleScoresOne(a, k, root);
    }
  }

  lemma PositiveQuotient(x: real, y: real)
    requires x > 0.0 && y > 0.0
    ensures x / y > 0.0
  {
    DivideMultiply(x, y);
    if x / y <= 0.0 {
      Scale(y, x / y, 0.0);
    }
  }

  lemma MultipleScoresOne(a: Vector, k: real, root: real -> real)
    requires IsRoot(root) && NonZero(a) && k > 0.0
    ensures CosineSimilarity(a, Times(k, a), root) == 1.0
  {
    hide Dot, Times, NonZero;
    NormPositive(a, root);
    MultipleNorm(a, k, root);
    var na, b := root(Dot(a, a)), Times(k, a);
    Positive(k, na);
    Positive(na, k * na);
    Rotated(na, k);
    DotTimesRight(k, a, a);
    SelfQuotient(Dot(a, b));
    EmptyHasNoDirection(a);
  }

  lemma MultipleNorm(a: Vector, k: real, root: real -> real)
    requires IsRoot(root) && NonZero(a) && k > 0.0
    ensures root(Dot(Times(k, a), Times(k, a))) == k * root(Dot(a, a))
  {
    hide Dot, Times, NonZero;
    NormPositive(a, root);
    var na := root(Dot(a, a));
    var n := k * na;
    var bb := Dot(Times(k, a), Times(k, a));
    NormTimes(k, a);
    ScaledSquare(k, na, Dot(a, a));
    assert n * n == bb;
    Positive(k, na);
    RootOfSquare(root, n, bb);
  }

  lemma ScaledSquare(k: real, x: real, xx: real)
    requires x * x == xx
    ensures (k * k) * xx == (k * x) * (k * x)
  {
    ProductOfSquares(k, x);
  }

  lemma EmptyHasNoDirection(a: Vector)
    requires NonZero(a)
    ensures a != []
  {
  }

  lemma Rotated(x: real, k: real)
    ensures x * (k * x) == k * (x * x)
  {
    Commutes(x, k * x);
    Associates(k, x, x);
  }

  lemma TimesTwice(j: real, k: real, a: Vector)
    ensures Times(j, Times(k, a)) == Times(j * k, a)
  {
    hide Times;
    forall i | 0 <= i < |a|
      ensures Times(j, Times(k, a))[i] == Times(j * k, a)[i]
    {
      TimesAt(j, Times(k, a), i);
      TimesAt(k, a, i);
      TimesAt(j * k, a, i);
      Associates(j, k, a[i]);
    }
  }

  lemma Associates(x: real, y: real, z: real)
    ensures x * (y * z) == (x * y) * z
  {
  }

  /** A score of -1 means the opposite direction. */
  lemma ScoreMinusOneIff(a: Vector, b: Vector, root: real -> real)
    requires IsRoot(root) && |a| == |b| && NonZero(a) && NonZero(b)
    ensures CosineSimilarity(a, b, root) == -1.0 <==> OppositeDirection(a, b)
  {
    hide Dot, Times, NonZero, CosineSimilarity, SameDirection, OppositeDirection;
    var c := Times(-1.0, b);
    OppositeScore(a, b, root);
    OppositeNorm(b);
    NonZeroIff(b);
    NonZeroIff(c);
    ScoreOneIff(a, c, root);
    OppositeOfOpposite(a, b);
  }

  lemma OppositeOfOpposite(a: Vector, b: Vector)
    requires |a| == |b|
    ensures SameDirection(a, Times(-1.0, b)) <==> OppositeDirection(a, b)
  {
    hide Times;
    var c := Times(-1.0, b);
    OppositeTwice(b);
    if SameDirection(a, c) {
      var k: real :| k > 0.0 && c == Times(k, a);
      OppositeTimes(k, a, -k);
    }
    if OppositeDirection(a, b) {
      var k: real :| k < 0.0 && b == Times(k, a);
      OppositeTimes(k, a, -k);
    }
  }

  lemma OppositeTimes(k: real, a: Vector, l: real)
    requires k + l == 0.0
    ensures Times(-1.0, Times(k, a)) == Times(l, a)
  {
    hide Times;
    TimesTwice(-1.0, k, a);
  }

  lemma OppositeTwice(a: Vector)
    ensures Times(-1.0, Times(-1.0, a)) == a
  {
    hide Times;
    TimesTwice(-1.0, -1.0, a);
    TimesOne(a);
  }

  lemma TimesOne(a: Vector)
    ensures Times(1.0, a) == a
  {
    hide Times;
    forall i | 0 <= i < |a|
      ensures Times(1.0, a)[i] == a[i]
    {
      TimesAt(1.0, a, i);
    }
  }

  // --- Snippets and hits ---

  /** A snippet is the text itself up to 480 characters, and otherwise its first 480 with an ellipsis. */
  lemma SnippetShows(s: string)
    ensures var t := TruncateSnippet(s);
            && |t| <= 481 && (|s| <= 480 ==> t == s)
            && (forall i :: 0 <= i < |s| && i < 480 ==> i < |t| && t[i] == s[i])
            && (|s| > 480 ==> |t| == 481 && t[480] == '\U{2026}')
  {
  }

  /** A row in the direction of the query is shown first, unless an earlier row points there too. */
  lemma BestMatchFirst(q: Vector, rows: seq<Row>, root: real -> real, top: nat, order: seq<nat>, i: nat)
    requires IsRoot(root) && NonZero(q) && IsTopK(q, rows, root, top, order) && top > 0
    requires i < |rows| && SameDirection(q, rows[i].vec)
    requires forall j: nat :: j < i ==> !SameDirection(q, rows[j].vec)
    ensures order != [] && order[0] == i
  {
    hide CosineSimilarity, NonZero, SameDirection;
    var j := order[0];
    MatchScoresOne(q, rows[i].vec, root);
    if j != i {
      TopBeatsAll(q, rows, root, top, order, i);
      ScoreBounded(q, rows[j].vec, root);
      EarlierDoesNotMatch(q, rows[j].vec, root);
      assert false;
    }
  }

  lemma MatchScoresOne(q: Vector, v: Vector, root: real -> real)
    requires IsRoot(root) && NonZero(q) && SameDirection(q, v)
    ensures CosineSimilarity(q, v, root) == 1.0
  {
    hide CosineSimilarity, NonZero, Times;
    var k: real :| k > 0.0 && v == Times(k, q);
    MultipleScoresOne(q, k, root);
  }

  lemma EarlierDoesNotMatch(q: Vector, v: Vector, root: real -> real)
    requires IsRoot(root) && NonZero(q) && CosineSimilarity(q, v, root) == 1.0
    ensures SameDirection(q, v)
  {
    hide CosineSimilarity, NonZero, SameDirection;
    if |q| == |v| && NonZero(v) {
      ScoreOneIff(q, v, root);
    } else {
      NoDirection(q, v, root);
    }
  }

  lemma TopBeatsAll(q: Vector, rows: seq<Row>, root: real -> real, top: nat, order: seq<nat>, i: nat)
    requires IsTopK(q, rows, root, top, order) && top > 0 && i < |rows| && order[0] != i
    ensures Before(ScoreOf(q, rows, root, order[0]), ScoreOf(q, rows, root, i))
  {
    hide CosineSimilarity, Before;
    if i in order {
      var k :| 0 <= k < |order| && order[k] == i;
    }
  }
}
