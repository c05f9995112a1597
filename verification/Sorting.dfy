/** The standard library's stable sort and `dedup`, and the order it gives strings and lists. */
module Sorting {

  ghost predicate TotalOrder<T(!new)>(le: (T, T) -> bool) {
    && (forall a, b :: le(a, b) || le(b, a))
    && (forall a, b :: le(a, b) && le(b, a) ==> a == b)
    && (forall a, b, c :: le(a, b) && le(b, c) ==> le(a, c))
  }

  function Insert<T>(x: T, s: seq<T>, le: (T, T) -> bool): (r: seq<T>)
    ensures multiset(r) == multiset(s) + multiset{x}
  {
    if s == [] then [x]
    else if le(x, s[0]) then [x] + s
    else
      assert s == [s[0]] + s[1..];
      [s[0]] + Insert(x, s[1..], le)
  }

  function Sort<T>(s: seq<T>, le: (T, T) -> bool): (r: seq<T>)
    ensures multiset(r) == multiset(s)
  {
    if s == [] then []
    else
      assert s == [s[0]] + s[1..];
      Insert(s[0], Sort(s[1..], le), le)
  }

  /** Consecutive equal elements become one. */
  function Dedup<T(!new,==)>(s: seq<T>): (r: seq<T>)
    ensures s != [] ==> r != [] && r[0] == s[0]
    ensures forall x :: x in r <==> x in s
  {
    if |s| < 2 then s
    else if s[0] == s[1] then Dedup(s[1..])
    else [s[0]] + Dedup(s[1..])
  }

  ghost predicate Sorted<T>(s: seq<T>, le: (T, T) -> bool) {
    forall i, j :: 0 <= i < j < |s| ==> le(s[i], s[j])
  }

  ghost predicate StrictlySorted<T>(s: seq<T>, le: (T, T) -> bool) {
    forall i, j :: 0 <= i < j < |s| ==> le(s[i], s[j]) && s[i] != s[j]
  }

  lemma SameElements<T>(r: seq<T>, s: seq<T>)
    requires multiset(r) == multiset(s)
    ensures |r| == |s| && forall x :: x in r <==> x in s
  {
    assert |multiset(r)| == |r| && |multiset(s)| == |s|;
    forall x
      ensures x in r <==> x in s
    {
      assert x in r <==> x in multiset(r);
      assert x in s <==> x in multiset(s);
    }
  }

  lemma {:induction false} InsertSorted<T(!new)>(x: T, s: seq<T>, le: (T, T) -> bool)
    requires TotalOrder(le) && Sorted(s, le)
    ensures Sorted(Insert(x, s, le), le)
  {
    if s != [] && !le(x, s[0]) {
      InsertSorted(x, s[1..], le);
      InsertedElements(x, s[1..], le);
      var r := Insert(x, s[1..], le);
      forall j | 0 <= j < |r|
        ensures le(s[0], r[j])
      {
        assert r[j] in r;
      }
    }
  }

  lemma InsertedElements<T>(x: T, s: seq<T>, le: (T, T) -> bool)
    ensures forall y :: y in Insert(x, s, le) <==> y == x || y in s
  {
    var r := Insert(x, s, le);
    assert multiset(s + [x]) == multiset(s) + multiset{x};
    SameElements(r, s + [x]);
  }

  lemma {:induction false} SortSorts<T(!new)>(s: seq<T>, le: (T, T) -> bool)
    requires TotalOrder(le)
    ensures Sorted(Sort(s, le), le)
  {
    if s != [] {
      SortSorts(s[1..], le);
      InsertSorted(s[0], Sort(s[1..], le), le);
    }
  }

  lemma {:induction false} DedupStrict<T(!new)>(s: seq<T>, le: (T, T) -> bool)
    requires TotalOrder(le) && Sorted(s, le)
    ensures StrictlySorted(Dedup(s), le)
  {
    if |s| >= 2 {
      DedupStrict(s[1..], le);
      if s[0] != s[1] {
        var r := Dedup(s[1..]);
        forall j | 0 <= j < |r|
          ensures le(s[0], r[j]) && s[0] != r[j]
        {
          assert r[j] in s[1..];
          var k :| 1 <= k < |s| && s[k] == r[j];
          assert le(s[1], s[k]) || k == 1;
        }
      }
    }
  }

  /** Sorting and deduplicating gives the elements in strictly ascending order. */
  lemma SortDedup<T(!new)>(s: seq<T>, le: (T, T) -> bool)
    requires TotalOrder(le)
    ensures StrictlySorted(Dedup(Sort(s, le)), le)
    ensures forall x :: x in Dedup(Sort(s, le)) <==> x in s
  {
    SortSorts(s, le);
    DedupStrict(Sort(s, le), le);
    SameElements(Sort(s, le), s);
  }

  /** There is only one way to list a set of elements in strictly ascending order. */
  lemma {:induction false} StrictlySortedUnique<T(!new)>(r: seq<T>, s: seq<T>, le: (T, T) -> bool)
    requires TotalOrder(le) && StrictlySorted(r, le) && StrictlySorted(s, le)
    requires forall x :: x in r <==> x in s
    ensures r == s
  {
    if r == [] {
      HasElement(s);
    } else if s == [] {
      HasElement(r);
    } else {
      FirstIsLeast(r, s, le);
      forall x
        ensures x in r[1..] <==> x in s[1..]
      {
        TailElements(r, x);
        TailElements(s, x);
      }
      StrictlySortedUnique(r[1..], s[1..], le);
      assert r == [r[0]] + r[1..] && s == [s[0]] + s[1..];
    }
  }

  lemma HasElement<T>(s: seq<T>)
    ensures s != [] ==> exists x :: x in s
  {
    if s != [] {
      assert s[0] in s;
    }
  }

  lemma TailElements<T>(s: seq<T>, x: T)
    requires s != [] && forall j :: 1 <= j < |s| ==> s[0] != s[j]
    ensures x in s[1..] <==> x in s && x != s[0]
  {
  }

  lemma FirstIsLeast<T(!new)>(r: seq<T>, s: seq<T>, le: (T, T) -> bool)
    requires TotalOrder(le) && StrictlySorted(r, le) && StrictlySorted(s, le) && r != [] && s != []
    requires forall x :: x in r <==> x in s
    ensures r[0] == s[0]
    ensures forall j :: 1 <= j < |r| ==> r[0] != r[j]
    ensures forall j :: 1 <= j < |s| ==> s[0] != s[j]
  {
    LeastFirst(r, s[0], le);
    LeastFirst(s, r[0], le);
  }

  lemma LeastFirst<T(!new)>(s: seq<T>, x: T, le: (T, T) -> bool)
    requires TotalOrder(le) && StrictlySorted(s, le) && x in s
    ensures le(s[0], x)
  {
    var i :| 0 <= i < |s| && s[i] == x;
    assert le(s[0], s[0]);
  }

  // --- Orders ---

  /** Lists compare by their first difference; a proper prefix comes first. */
  predicate LexLe<T(==)>(a: seq<T>, b: seq<T>, le: (T, T) -> bool) {
    if a == [] then true
    else if b == [] then false
    else if a[0] == b[0] then LexLe(a[1..], b[1..], le)
    else le(a[0], b[0])
  }

  lemma {:induction false} LexTotal<T(!new)>(a: seq<T>, b: seq<T>, le: (T, T) -> bool)
    requires TotalOrder(le)
    ensures LexLe(a, b, le) || LexLe(b, a, le)
    ensures LexLe(a, b, le) && LexLe(b, a, le) ==> a == b
  {
    if a != [] && b != [] {
      if a[0] == b[0] {
        LexTotal(a[1..], b[1..], le);
        assert a == [a[0]] + a[1..] && b == [b[0]] + b[1..];
      } else {
        assert le(a[0], b[0]) || le(b[0], a[0]);
      }
    }
  }

  lemma {:induction false} LexTransitive<T(!new)>(a: seq<T>, b: seq<T>, c: seq<T>, le: (T, T) -> bool)
    requires TotalOrder(le) && LexLe(a, b, le) && LexLe(b, c, le)
    ensures LexLe(a, c, le)
  {
    if a != [] {
      if a[0] == b[0] == c[0] {
        LexTransitive(a[1..], b[1..], c[1..], le);
      }
    }
  }

  predicate CharLe(a: char, b: char) {
    a <= b
  }

  /** The order of strings: by character, as by the bytes of their UTF-8 form. */
  predicate StringLe(a: string, b: string) {
    LexLe(a, b, CharLe)
  }

  lemma StringOrder()
    ensures TotalOrder(StringLe)
  {
    assert TotalOrder(CharLe);
    forall a, b
      ensures StringLe(a, b) || StringLe(b, a)
      ensures StringLe(a, b) && StringLe(b, a) ==> a == b
    {
      LexTotal(a, b, CharLe);
    }
    forall a, b, c | StringLe(a, b) && StringLe(b, c)
      ensures StringLe(a, c)
    {
      LexTransitive(a, b, c, CharLe);
    }
  }

  /** The first character in which two strings differ decides, and a string comes behind its own prefixes. */
  lemma {:induction false} StringLeDecided(p: string, a: string, b: string)
    ensures StringLe(p, p + a)
    ensures a != "" ==> !StringLe(p + a, p)
    ensures a != "" && b != "" && a[0] < b[0] ==> StringLe(p + a, p + b) && !StringLe(p + b, p + a)
  {
    if p == "" {
      assert p + a == a && p + b == b;
    } else {
      var t := p[1..];
      StringLeDecided(t, a, b);
      assert (p + a)[1..] == t + a && (p + b)[1..] == t + b;
    }
  }

  predicate ListLe(a: seq<string>, b: seq<string>) {
    LexLe(a, b, StringLe)
  }

  lemma ListOrder()
    ensures TotalOrder(ListLe)
  {
    hide StringLe;
    StringOrder();
    forall a, b
      ensures ListLe(a, b) || ListLe(b, a)
      ensures ListLe(a, b) && ListLe(b, a) ==> a == b
    {
      LexTotal(a, b, StringLe);
    }
    forall a, b, c | ListLe(a, b) && ListLe(b, c)
      ensures ListLe(a, c)
    {
      LexTransitive(a, b, c, StringLe);
    }
  }
}
