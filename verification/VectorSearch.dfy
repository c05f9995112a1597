/** Ranking indexed chunks by cosine similarity, over exact reals. */
module VectorSearch {
  import opened Sorting
  import opened StreamTypes

  type Vector = seq<real>

  datatype Row = Row(path: string, text: string, vec: Vector)

  datatype Hit = Hit(path: string, snippet: string, score: real)

  datatype QueryError = DimensionMismatch(expected: nat, got: nat)

  const SNIPPET_CHARS: nat := 480
  const MOST_HITS: nat := 64

  function Dot(a: Vector, b: Vector): real
    requires |a| == |b|
  {
    if a == [] then 0.0 else a[0] * b[0] + Dot(a[1..], b[1..])
  }

  /** `root` is the square root. */
  function CosineSimilarity(a: Vector, b: Vector, root: real -> real): real {
    if |a| != |b| || a == [] then 0.0
    else
      var na, nb := root(Dot(a, a)), root(Dot(b, b));
      if na == 0.0 || nb == 0.0 then 0.0
      else
        NonZeroProduct(na, nb);
        Dot(a, b) / (na * nb)
  }

  lemma NonZeroProduct(x: real, y: real)
    requires x != 0.0 && y != 0.0
    ensures x * y != 0.0
  {
  }

  ghost predicate IsRoot(root: real -> real) {
    forall x :: x >= 0.0 ==> root(x) >= 0.0 && root(x) * root(x) == x
  }

  // --- Cauchy-Schwarz ---

  lemma Square(x: real)
    ensures x * x >= 0.0
  {
  }

  lemma {:induction false} SquaresSum(a: Vector)
    ensures Dot(a, a) >= 0.0
  {
    if a != [] {
      SquaresSum(a[1..]);
      Square(a[0]);
    }
  }

  /** (xx)(yy) = (xy)(xy), and scaling by it. */
  lemma ProductOfSquares(x: real, y: real)
    ensures (x * x) * (y * y) == (x * y) * (x * y)
  {
    assert (x * x) * (y * y) == x * (x * (y * y));
    assert x * (y * y) == (x * y) * y;
    assert x * ((x * y) * y) == (x * y) * (x * y);
  }

  lemma Scale(k: real, a: real, b: real)
    requires k >= 0.0 && a <= b
    ensures k * a <= k * b
  {
  }

  lemma Binomial(p: real, q: real)
    ensures (p - q) * (p - q) == p * p - 2.0 * (p * q) + q * q
    ensures (p + q) * (p + q) == p * p + 2.0 * (p * q) + q * q
  {
  }

  /** From 4pq <= (p + q)(p + q) and pq >= tt: p + q >= 2t. */
  lemma MeanBound(p: real, q: real, t: real)
    requires p >= 0.0 && q >= 0.0 && t * t <= p * q
    ensures 2.0 * t <= p + q
  {
    Binomial(p, q);
    Square(p - q);
    Doubled(t);
    if p + q < 2.0 * t {
      StrictSquare(p + q, 2.0 * t);
    }
  }

  lemma Doubled(t: real)
    ensures (2.0 * t) * (2.0 * t) == 4.0 * (t * t)
  {
  }

  lemma StrictSquare(x: real, y: real)
    requires 0.0 <= x < y
    ensures x * x < y * y
  {
    Positive(y - x, y + x);
    assert (y + x) * (y - x) == y * y - x * x;
  }

  lemma Positive(x: real, y: real)
    requires x > 0.0 && y > 0.0
    ensures x * y > 0.0
  {
  }

  /** One more pair of coordinates keeps the inequality. */
  lemma CauchySchwarzStep(x: real, y: real, d: real, a: real, b: real)
    requires a >= 0.0 && b >= 0.0 && d * d <= a * b
    ensures (x * y + d) * (x * y + d) <= (x * x + a) * (y * y + b)
  {
    var xx, yy, xy := x * x, y * y, x * y;
    Square(x);
    Square(y);
    Square(xy);
    ProductOfSquares(x, y);
    Binomial(xy, d);
    var p, q := xx * b, yy * a;
    CrossTerm(xx, yy, a, b);
    Scale(xy * xy, d * d, a * b);
    ProductOfSquares(xy, d);
    Scale(xx, 0.0, b);
    Scale(yy, 0.0, a);
    MeanBound(p, q, xy * d);
    Expand(xx, a, yy, b);
  }

  lemma CrossTerm(xx: real, yy: real, a: real, b: real)
    ensures (xx * b) * (yy * a) == (xx * yy) * (a * b)
  {
    assert (xx * b) * (yy * a) == xx * (b * (yy * a));
    assert b * (yy * a) == yy * (a * b);
    assert xx * (yy * (a * b)) == (xx * yy) * (a * b);
  }

  lemma Expand(xx: real, a: real, yy: real, b: real)
    ensures (xx + a) * (yy + b) == xx * yy + xx * b + yy * a + a * b
  {
    assert (xx + a) * (yy + b) == xx * (yy + b) + a * (yy + b);
  }

  lemma EmptyDot()
    ensures Dot([], []) == 0.0
  {
  }

  lemma DotStep(a: Vector, b: Vector)
    requires |a| == |b| && a != []
    ensures Dot(a, b) == a[0] * b[0] + Dot(a[1..], b[1..])
  {
  }

  lemma {:induction false} CauchySchwarz(a: Vector, b: Vector)
    requires |a| == |b|
    ensures Dot(a, b) * Dot(a, b) <= Dot(a, a) * Dot(b, b)
  {
    hide Dot;
    if a == [] {
      EmptyDot();
    } else {
      CauchySchwarz(a[1..], b[1..]);
      SquaresSum(a[1..]);
      SquaresSum(b[1..]);
      DotStep(a, b);
      DotStep(a, a);
      DotStep(b, b);
      CauchySchwarzStep(a[0], b[0], Dot(a[1..], b[1..]), Dot(a[1..], a[1..]), Dot(b[1..], b[1..]));
    }
  }

  lemma QuotientInUnit(d: real, n: real)
    requires n > 0.0 && d * d <= n * n
    ensures -1.0 <= d / n <= 1.0
  {
    if d > n {
      StrictSquare(n, d);
    }
    if -d > n {
      StrictSquare(n, -d);
    }
  }

  /** Every score lies between -1 and 1. */
  lemma ScoreBounded(a: Vector, b: Vector, root: real -> real)
    requires IsRoot(root)
    ensures -1.0 <= CosineSimilarity(a, b, root) <= 1.0
  {
    if |a| == |b| && a != [] {
      SquaresSum(a);
      SquaresSum(b);
      var na, nb := root(Dot(a, a)), root(Dot(b, b));
      if na != 0.0 && nb != 0.0 {
        Positive(na, nb);
        CauchySchwarz(a, b);
        ProductOfSquares(na, nb);
        QuotientInUnit(Dot(a, b), na * nb);
      }
    }
  }

  /** A vector pointing the way of the query scores exactly 1. */
  lemma SelfScore(a: Vector, root: real -> real)
    requires IsRoot(root) && Dot(a, a) > 0.0
    ensures CosineSimilarity(a, a, root) == 1.0
  {
    var n := root(Dot(a, a));
    RootNonZero(n, Dot(a, a));
    SelfQuotient(Dot(a, a));
  }

  lemma RootNonZero(n: real, d: real)
    requires n * n == d && d > 0.0
    ensures n != 0.0
  {
  }

  lemma SelfQuotient(d: real)
    requires d != 0.0
    ensures d / d == 1.0
  {
  }

  // --- Ranking ---

  /** A score and the number of its row. */
  datatype Scored = Scored(score: real, row: nat)

  predicate HigherFirst(x: Scored, y: Scored) {
    x.score >= y.score
  }

  /** `x` comes before `y`: a higher score, or the same score and an earlier row. */
  predicate Before(x: Scored, y: Scored) {
    x.score > y.score || (x.score == y.score && x.row < y.row)
  }

  ghost predicate Ranked(s: seq<Scored>) {
    forall j, k :: 0 <= j < k < |s| ==> Before(s[j], s[k])
  }

  lemma {:induction false} InsertRanked(x: Scored, s: seq<Scored>)
    requires Ranked(s) && forall k :: 0 <= k < |s| ==> x.row < s[k].row
    ensures Ranked(Insert(x, s, HigherFirst))
  {
    if s != [] && !HigherFirst(x, s[0]) {
      InsertRanked(x, s[1..]);
      InsertedElements(x, s[1..], HigherFirst);
      var r := Insert(x, s[1..], HigherFirst);
      forall j | 0 <= j < |r|
        ensures Before(s[0], r[j])
      {
        assert r[j] in r;
      }
    }
  }

  /** The stable sort breaks ties by row. */
  lemma {:induction false} SortRanked(s: seq<Scored>)
    requires forall j, k :: 0 <= j < k < |s| ==> s[j].row < s[k].row
    ensures Ranked(Sort(s, HigherFirst))
  {
    if s != [] {
      SortRanked(s[1..]);
      var r := Sort(s[1..], HigherFirst);
      SameElements(r, s[1..]);
      forall k | 0 <= k < |r|
        ensures s[0].row < r[k].row
      {
        assert r[k] in s[1..];
      }
      InsertRanked(s[0], r);
    }
  }

  function ScoreOf(q: Vector, rows: seq<Row>, root: real -> real, i: nat): Scored
    requires i < |rows|
  {
    Scored(CosineSimilarity(q, rows[i].vec, root), i)
  }

  /**
   * These rows, in this order, are the best `top`: no row left out, and no row further down, comes
   * before any of them.
   */
  ghost predicate IsTopK(q: Vector, rows: seq<Row>, root: real -> real, top: nat, order: seq<nat>) {
    && |order| == (if top < |rows| then top else |rows|)
    && (forall k :: 0 <= k < |order| ==> order[k] < |rows|)
    && (forall j, k :: 0 <= j < k < |order| ==>
          Before(ScoreOf(q, rows, root, order[j]), ScoreOf(q, rows, root, order[k])))
    && (forall k, i: nat :: 0 <= k < |order| && i < |rows| && i !in order ==>
          Before(ScoreOf(q, rows, root, order[k]), ScoreOf(q, rows, root, i)))
  }

  function TruncateSnippet(s: string): string {
    if |s| <= SNIPPET_CHARS then s else s[..SNIPPET_CHARS] + "\U{2026}"
  }

  function HitOf(q: Vector, rows: seq<Row>, root: real -> real, i: nat): Hit
    requires i < |rows|
  {
    Hit(rows[i].path, TruncateSnippet(rows[i].text), CosineSimilarity(q, rows[i].vec, root))
  }

  function Least(x: nat, y: nat, z: nat): (r: nat)
    ensures r <= x && r <= y && r <= z && (r == x || r == y || r == z)
  {
    if x <= y && x <= z then x else if y <= z then y else z
  }

  /** The best rows for a query vector; `order` says which rows they are. */
  method RankRows(q: Vector, rows: seq<Row>, topK: u32, root: real -> real)
    returns (r: Result<seq<Hit>, QueryError>, ghost order: seq<nat>)
    ensures rows == [] ==> r == Ok([])
    ensures rows != [] ==> (r.Err? <==> |q| != |rows[0].vec|)
    ensures r.Err? ==> r.error == DimensionMismatch(|rows[0].vec|, |q|)
    ensures r.Ok? ==> IsTopK(q, rows, root, if topK < MOST_HITS then topK else MOST_HITS, order)
    ensures r.Ok? ==> |r.value| == |order| == Least(topK, 64, |rows|)
    ensures r.Ok? ==> forall k :: 0 <= k < |order| ==> r.value[k] == HitOf(q, rows, root, order[k])
  {
    order := [];
    if rows == [] {
      return Ok([]), order;
    }
    if |q| != |rows[0].vec| {
      return Err(DimensionMismatch(|rows[0].vec|, |q|)), order;
    }
    hide CosineSimilarity, IsTopK;
    var scored := ScoreRows(q, rows, root);
    var top := if topK < MOST_HITS then topK else MOST_HITS;
    TakeIsTopK(q, rows, root, top, scored);
    scored := Sort(scored, HigherFirst);
    var n := if top < |scored| then top else |scored|;
    var hits := TakeHits(q, rows, root, scored, n);
    order := Taken(scored, n);
    r := Ok(hits);
  }

  method ScoreRows(q: Vector, rows: seq<Row>, root: real -> real) returns (scored: seq<Scored>)
    ensures |scored| == |rows| && forall k :: 0 <= k < |rows| ==> scored[k] == ScoreOf(q, rows, root, k)
  {
    hide CosineSimilarity;
    scored := [];
    for i := 0 to |rows|
      invariant |scored| == i && forall k :: 0 <= k < i ==> scored[k] == ScoreOf(q, rows, root, k)
    {
      scored := scored + [Scored(CosineSimilarity(q, rows[i].vec, root), i)];
    }
  }

  method TakeHits(q: Vector, rows: seq<Row>, root: real -> real, scored: seq<Scored>, n: nat) returns (hits: seq<Hit>)
    requires n <= |scored|
    requires forall k :: 0 <= k < |scored| ==>
               scored[k].row < |rows| && scored[k] == ScoreOf(q, rows, root, scored[k].row)
    ensures |hits| == n && forall k :: 0 <= k < n ==> hits[k] == HitOf(q, rows, root, scored[k].row)
  {
    hide CosineSimilarity, TruncateSnippet;
    hits := [];
    for k := 0 to n
      invariant |hits| == k && forall j :: 0 <= j < k ==> hits[j] == HitOf(q, rows, root, scored[j].row)
    {
      var Scored(score, i) := scored[k];
      hits := hits + [Hit(rows[i].path, TruncateSnippet(rows[i].text), score)];
    }
  }

  ghost function Taken(s: seq<Scored>, n: nat): seq<nat>
    requires n <= |s|
  {
    seq(n, k requires 0 <= k < n => s[k].row)
  }

  /** The scored rows are sorted, each row being somewhere. */
  ghost predicate Ranking(q: Vector, rows: seq<Row>, root: real -> real, sorted: seq<Scored>) {
    && |sorted| == |rows| && Ranked(sorted)
    && (forall k :: 0 <= k < |sorted| ==>
          sorted[k].row < |rows| && sorted[k] == ScoreOf(q, rows, root, sorted[k].row))
    && (forall i: nat :: i < |rows| ==> ScoreOf(q, rows, root, i) in sorted)
  }

  lemma {:induction false} SortIsRanking(q: Vector, rows: seq<Row>, root: real -> real, scored: seq<Scored>)
    requires |scored| == |rows| && forall k :: 0 <= k < |rows| ==> scored[k] == ScoreOf(q, rows, root, k)
    ensures Ranking(q, rows, root, Sort(scored, HigherFirst))
  {
    hide CosineSimilarity, Ranked;
    var sorted := Sort(scored, HigherFirst);
    SameElements(sorted, scored);
    SortRanked(scored);
    forall k | 0 <= k < |sorted|
      ensures sorted[k].row < |rows| && sorted[k] == ScoreOf(q, rows, root, sorted[k].row)
    {
      assert sorted[k] in scored;
    }
    forall i: nat | i < |rows|
      ensures ScoreOf(q, rows, root, i) in sorted
    {
      assert scored[i] in scored;
    }
  }

  lemma TakeIsTopK(q: Vector, rows: seq<Row>, root: real -> real, top: nat, scored: seq<Scored>)
    requires |scored| == |rows| && forall k :: 0 <= k < |rows| ==> scored[k] == ScoreOf(q, rows, root, k)
    ensures var sorted := Sort(scored, HigherFirst);
            && |sorted| == |rows|
            && (forall k :: 0 <= k < |sorted| ==>
                  sorted[k].row < |rows| && sorted[k] == ScoreOf(q, rows, root, sorted[k].row))
            && IsTopK(q, rows, root, top, Taken(sorted, if top < |rows| then top else |rows|))
  {
    SortIsRanking(q, rows, root, scored);
    RankingTopK(q, rows, root, top, Sort(scored, HigherFirst));
    hide CosineSimilarity, Sort, IsTopK, Ranked, Taken;
  }

  lemma TakenHas(s: seq<Scored>, n: nat, p: nat)
    requires n <= |s| && p < |s|
    ensures p < n ==> s[p].row in Taken(s, n)
  {
    assert p < n ==> Taken(s, n)[p] == s[p].row;
  }

  lemma RankingTopK(q: Vector, rows: seq<Row>, root: real -> real, top: nat, sorted: seq<Scored>)
    requires Ranking(q, rows, root, sorted)
    ensures IsTopK(q, rows, root, top, Taken(sorted, if top < |rows| then top else |rows|))
  {
    hide CosineSimilarity, Before;
    var order := Taken(sorted, if top < |rows| then top else |rows|);
    forall k, i: nat | 0 <= k < |order| && i < |rows| && i !in order
      ensures Before(ScoreOf(q, rows, root, order[k]), ScoreOf(q, rows, root, i))
    {
      var p :| 0 <= p < |sorted| && sorted[p] == ScoreOf(q, rows, root, i);
      TakenHas(sorted, |order|, p);
      assert Before(sorted[k], sorted[p]);
    }
  }

  /** There is only one such selection. */
  lemma {:induction false} TopKUnique(q: Vector, rows: seq<Row>, root: real -> real, top: nat, a: seq<nat>, b: seq<nat>, k: nat)
    requires IsTopK(q, rows, root, top, a) && IsTopK(q, rows, root, top, b) && k <= |a|
    ensures a[..k] == b[..k]
  {
    hide CosineSimilarity;
    if k > 0 {
      TopKUnique(q, rows, root, top, a, b, k - 1);
      if a[k - 1] != b[k - 1] {
        NotLater(q, rows, root, top, a, b, k - 1);
        NotLater(q, rows, root, top, b, a, k - 1);
      }
      assert a[..k] == a[..k - 1] + [a[k - 1]] && b[..k] == b[..k - 1] + [b[k - 1]];
    }
  }

  lemma TakePrefix(a: seq<nat>, k: nat, p: nat)
    requires k <= |a| && p < |a|
    ensures p < k ==> a[p] in a[..k]
  {
    assert p < k ==> a[..k][p] == a[p];
  }

  lemma NoRepeat(q: Vector, rows: seq<Row>, root: real -> real, top: nat, b: seq<nat>, k: nat)
    requires IsTopK(q, rows, root, top, b) && k < |b|
    ensures b[k] !in b[..k]
  {
    hide CosineSimilarity;
  }

  lemma NotLater(q: Vector, rows: seq<Row>, root: real -> real, top: nat, a: seq<nat>, b: seq<nat>, k: nat)
    requires IsTopK(q, rows, root, top, a) && IsTopK(q, rows, root, top, b) && k < |a| && a[..k] == b[..k]
    requires a[k] != b[k]
    ensures Before(ScoreOf(q, rows, root, a[k]), ScoreOf(q, rows, root, b[k]))
  {
    hide CosineSimilarity;
    if b[k] in a {
      var p :| 0 <= p < |a| && a[p] == b[k];
      NoRepeat(q, rows, root, top, b, k);
      TakePrefix(a, k, p);
    }
  }
}
