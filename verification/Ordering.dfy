// Total orders, and the one sequence a finite set makes when it is sorted.

module Ordering {
  datatype Option<+T> = None | Some(value: T)

  /** Lexicographic order on strings by code point, as the source language compares them. */
  predicate LexLe(a: string, b: string) {
    a == [] || (b != [] && (a[0] < b[0] || (a[0] == b[0] && LexLe(a[1..], b[1..]))))
  }

  lemma {:induction false} LexTotal(a: string, b: string)
    ensures LexLe(a, b) || LexLe(b, a)
  {
    if a != [] && b != [] && a[0] == b[0] {
      LexTotal(a[1..], b[1..]);
    }
  }

  lemma {:induction false} LexAntisymmetric(a: string, b: string)
    requires LexLe(a, b) && LexLe(b, a)
    ensures a == b
  {
    if a != [] && b != [] {
      LexAntisymmetric(a[1..], b[1..]);
      assert a == [a[0]] + a[1..] && b == [b[0]] + b[1..];
    }
  }

  lemma {:induction false} LexTransitive(a: string, b: string, c: string)
    requires LexLe(a, b) && LexLe(b, c)
    ensures LexLe(a, c)
  {
    if a != [] && a[0] == b[0] == c[0] {
      LexTransitive(a[1..], b[1..], c[1..]);
    }
  }

  ghost predicate TotalOrder<T(!new)>(le: (T, T) -> bool) {
    && (forall x, y :: le(x, y) || le(y, x))
    && (forall x, y :: le(x, y) && le(y, x) ==> x == y)
    && (forall x, y, z :: le(x, y) && le(y, z) ==> le(x, z))
  }

  lemma LexIsTotalOrder()
    ensures TotalOrder(LexLe)
  {
    forall x, y ensures LexLe(x, y) || LexLe(y, x) { LexTotal(x, y); }
    forall x, y | LexLe(x, y) && LexLe(y, x) ensures x == y { LexAntisymmetric(x, y); }
    forall x, y, z | LexLe(x, y) && LexLe(y, z) ensures LexLe(x, z) { LexTransitive(x, y, z); }
  }

  lemma {:induction false} HasLeast<T(!new)>(s: set<T>, le: (T, T) -> bool) returns (least: T)
    requires TotalOrder(le) && s != {}
    ensures least in s && forall y :: y in s ==> le(least, y)
  {
    var first :| first in s;
    assert le(first, first);
    var rest := s - {first};
    least := first;
    if rest != {} {
      var other := HasLeast(rest, le);
      least := if le(other, first) then other else first;
      assert le(least, first) && le(least, other);
    }
    forall y | y in s ensures le(least, y) {
      assert y == first || y in rest;
    }
  }

  function Least<T(!new, ==)>(s: set<T>, le: (T, T) -> bool): (least: T)
    requires TotalOrder(le) && s != {}
    ensures least in s && forall y :: y in s ==> le(least, y)
  {
    assert exists x :: x in s && forall y :: y in s ==> le(x, y) by {
      var x := HasLeast(s, le);
    }
    var x :| x in s && forall y :: y in s ==> le(x, y);
    x
  }

  ghost predicate Ascending<T(!new)>(q: seq<T>, le: (T, T) -> bool) {
    forall i, j :: 0 <= i < j < |q| ==> le(q[i], q[j]) && q[i] != q[j]
  }

  /** The elements of `s`, each once, in ascending order. */
  function Arrange<T(!new, ==)>(s: set<T>, le: (T, T) -> bool): (q: seq<T>)
    requires TotalOrder(le)
    ensures forall x :: x in q <==> x in s
    ensures Ascending(q, le)
  {
    if s == {} then [] else
      var least := Least(s, le);
      [least] + Arrange(s - {least}, le)
  }

  lemma SubsetSize<T>(a: set<T>, b: set<T>)
    requires a <= b
    ensures |a| <= |b|
  {
    assert b == a + (b - a);
  }

  // ----- sorting by a preorder, in which ties are allowed

  ghost predicate Preorder<T(!new)>(le: (T, T) -> bool) {
    && (forall x, y :: le(x, y) || le(y, x))
    && (forall x, y, z :: le(x, y) && le(y, z) ==> le(x, z))
  }

  ghost predicate SortedBy<T>(q: seq<T>, le: (T, T) -> bool) {
    forall i, j :: 0 <= i < j < |q| ==> le(q[i], q[j])
  }

  function Insert<T>(x: T, q: seq<T>, le: (T, T) -> bool): seq<T> {
    if q == [] || le(x, q[0]) then [x] + q else [q[0]] + Insert(x, q[1..], le)
  }

  /** The stable sort: an earlier element stays before a later one it ties with. */
  function Sort<T>(q: seq<T>, le: (T, T) -> bool): seq<T> {
    if q == [] then [] else Insert(q[0], Sort(q[1..], le), le)
  }

  lemma SameElements<T>(p: seq<T>, q: seq<T>)
    requires multiset(p) == multiset(q)
    ensures |p| == |q|
    ensures forall x :: x in p <==> x in q
  {
    assert |multiset(p)| == |p| && |multiset(q)| == |q|;
    forall x ensures x in p <==> x in q {
      assert x in p <==> x in multiset(p);
      assert x in q <==> x in multiset(q);
    }
  }

  lemma {:induction false} InsertKeepsElements<T>(x: T, q: seq<T>, le: (T, T) -> bool)
    ensures multiset(Insert(x, q, le)) == multiset{x} + multiset(q)
  {
    if q != [] && !le(x, q[0]) {
      InsertKeepsElements(x, q[1..], le);
      assert q == [q[0]] + q[1..];
    }
  }

  lemma {:induction false} InsertKeepsOrder<T(!new)>(x: T, q: seq<T>, le: (T, T) -> bool)
    requires Preorder(le) && SortedBy(q, le)
    ensures SortedBy(Insert(x, q, le), le)
  {
    if q == [] {
    } else if le(x, q[0]) {
      var r := [x] + q;
      assert forall i :: 0 <= i < |q| ==> le(x, q[i]);
    } else {
      InsertKeepsOrder(x, q[1..], le);
      InsertKeepsElements(x, q[1..], le);
      var rest := Insert(x, q[1..], le);
      forall i | 0 <= i < |rest| ensures le(q[0], rest[i]) {
        assert rest[i] in multiset(rest);
        assert rest[i] == x || rest[i] in q[1..];
      }
    }
  }

  lemma {:induction false} SortSorts<T(!new)>(q: seq<T>, le: (T, T) -> bool)
    requires Preorder(le)
    ensures multiset(Sort(q, le)) == multiset(q)
    ensures SortedBy(Sort(q, le), le)
  {
    if q != [] {
      SortSorts(q[1..], le);
      InsertKeepsElements(q[0], Sort(q[1..], le), le);
      InsertKeepsOrder(q[0], Sort(q[1..], le), le);
      assert q == [q[0]] + q[1..];
    }
  }

  lemma TailElements<T>(p: seq<T>)
    requires p != []
    ensures multiset(p[1..]) == multiset(p) - multiset{p[0]}
  {
    assert p == [p[0]] + p[1..];
  }

  /** Only equal elements tie. */
  ghost predicate TiesAreEqual<T(!new)>(p: seq<T>, le: (T, T) -> bool) {
    forall x, y :: x in p && y in p && le(x, y) && le(y, x) ==> x == y
  }

  /** When only equal elements tie, there is one sorted arrangement. */
  lemma {:induction false} SortedIsUnique<T(!new)>(p: seq<T>, q: seq<T>, le: (T, T) -> bool)
    requires Preorder(le) && multiset(p) == multiset(q)
    requires SortedBy(p, le) && SortedBy(q, le) && TiesAreEqual(p, le)
    ensures p == q
  {
    SameElements(p, q);
    if p != [] {
      SameHeads(p, q, le);
      TailElements(p);
      TailElements(q);
      SortedTail(p, le);
      SortedTail(q, le);
      hide Preorder, SortedBy, TiesAreEqual;
      SortedIsUnique(p[1..], q[1..], le);
      assert p == [p[0]] + p[1..] && q == [q[0]] + q[1..];
    }
  }

  lemma SortedTail<T(!new)>(p: seq<T>, le: (T, T) -> bool)
    requires p != [] && SortedBy(p, le)
    ensures SortedBy(p[1..], le)
    ensures TiesAreEqual(p, le) ==> TiesAreEqual(p[1..], le)
  {
    assert forall x :: x in p[1..] ==> x in p;
  }

  lemma SameHeads<T(!new)>(p: seq<T>, q: seq<T>, le: (T, T) -> bool)
    requires Preorder(le) && p != [] && q != [] && (forall x :: x in p <==> x in q)
    requires SortedBy(p, le) && SortedBy(q, le) && TiesAreEqual(p, le)
    ensures p[0] == q[0]
  {
    assert p[0] in q && q[0] in p;
    assert le(p[0], p[0]);
    assert le(p[0], q[0]) && le(q[0], p[0]);
  }

  lemma SortIsOrderFree<T(!new)>(p: seq<T>, q: seq<T>, le: (T, T) -> bool)
    requires Preorder(le) && multiset(p) == multiset(q) && TiesAreEqual(p, le)
    ensures Sort(p, le) == Sort(q, le)
  {
    SortSorts(p, le);
    SortSorts(q, le);
    SameElements(p, Sort(p, le));
    SortedIsUnique(Sort(p, le), Sort(q, le), le);
  }
}
