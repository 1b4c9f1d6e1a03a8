/** The order of security ids, and the stable sort behind Python's sorted(). */
module Ordering {

  type Id = string

  // ---------------------------------------------------------------- ids

  /** Strict lexicographic order. */
  predicate IdLess(a: Id, b: Id) {
    if b == "" then false
    else if a == "" then true
    else a[0] < b[0] || (a[0] == b[0] && IdLess(a[1..], b[1..]))
  }

  predicate IdLeq(a: Id, b: Id) {
    a == b || IdLess(a, b)
  }

  lemma {:induction false} IdLessTotal(a: Id, b: Id)
    ensures a == b || IdLess(a, b) || IdLess(b, a)
    ensures !(IdLess(a, b) && IdLess(b, a))
    ensures a == b ==> !IdLess(a, b)
  {
    if a != "" && b != "" {
      IdLessTotal(a[1..], b[1..]);
      if a[0] == b[0] && a[1..] == b[1..] {
        assert a == [a[0]] + a[1..] == b;
      }
    }
  }

  lemma {:induction false} IdLessTransitive(a: Id, b: Id, c: Id)
    requires IdLess(a, b) && IdLess(b, c)
    ensures IdLess(a, c)
  {
    if a != "" && a[0] == b[0] && b[0] == c[0] {
      IdLessTransitive(a[1..], b[1..], c[1..]);
    }
  }

  lemma IdOrderIsTotal()
    ensures TotalOrder(IdLeq)
    ensures Antisymmetric(IdLeq)
  {
    forall a: Id, b: Id ensures IdLeq(a, b) || IdLeq(b, a) { IdLessTotal(a, b); }
    forall a: Id, b: Id | IdLeq(a, b) && IdLeq(b, a) ensures a == b { IdLessTotal(a, b); }
    forall a: Id, b: Id, c: Id | IdLeq(a, b) && IdLeq(b, c) ensures IdLeq(a, c) {
      if a != b && b != c { IdLessTransitive(a, b, c); }
    }
  }

  /** An element that comes first exists in every non-empty set. */
  lemma {:induction false} LeastExists(s: set<Id>)
    requires s != {}
    ensures exists k :: k in s && forall j :: j in s ==> IdLeq(k, j)
    decreases |s|
  {
    IdOrderIsTotal();
    var k :| k in s;
    if s == {k} {
      assert forall j :: j in s ==> IdLeq(k, j);
    } else {
      LeastExists(s - {k});
      var l :| l in s - {k} && forall j :: j in s - {k} ==> IdLeq(l, j);
      var m := if IdLeq(k, l) then k else l;
      forall j | j in s ensures IdLeq(m, j) {
        if j != k { assert j in s - {k}; }
      }
      assert m in s;
    }
  }

  function Least(s: set<Id>): (k: Id)
    requires s != {}
    ensures k in s && forall j :: j in s ==> IdLeq(k, j)
  {
    LeastExists(s);
    IdOrderIsTotal();
    var k :| k in s && forall j :: j in s ==> IdLeq(k, j);
    k
  }

  /** A dictionary's keys, or a set's members, in ascending order. */
  function SortedIds(s: set<Id>): (order: seq<Id>)
    ensures |order| == |s|
    ensures forall k :: k in order <==> k in s
    ensures forall i, j :: 0 <= i < j < |order| ==> order[i] != order[j]
    ensures Sorted(order, IdLeq)
    decreases |s|
  {
    if s == {} then [] else
    var k := Least(s);
    var rest := SortedIds(s - {k});
    [k] + rest
  }

  lemma SortedIdsAscend(s: set<Id>)
    ensures forall i, j :: 0 <= i < j < |s| ==> IdLess(SortedIds(s)[i], SortedIds(s)[j])
  {
    hide IdLess;
  }

  // ---------------------------------------------------------------- sorting

  ghost predicate TotalOrder<T(!new)>(leq: (T, T) -> bool) {
    && (forall x, y :: leq(x, y) || leq(y, x))
    && (forall x, y, z :: leq(x, y) && leq(y, z) ==> leq(x, z))
  }

  ghost predicate Antisymmetric<T(!new)>(leq: (T, T) -> bool) {
    forall x, y :: leq(x, y) && leq(y, x) ==> x == y
  }

  predicate Sorted<T>(s: seq<T>, leq: (T, T) -> bool) {
    forall i, j :: 0 <= i < j < |s| ==> leq(s[i], s[j])
  }

  /** Insert before the first element that is not smaller. */
  function Insert<T>(x: T, s: seq<T>, leq: (T, T) -> bool): seq<T> {
    if s == [] || leq(x, s[0]) then [x] + s
    else [s[0]] + Insert(x, s[1..], leq)
  }

  /** Stable sort: equal elements keep their order. */
  function SortBy<T>(s: seq<T>, leq: (T, T) -> bool): seq<T> {
    if s == [] then [] else Insert(s[0], SortBy(s[1..], leq), leq)
  }

  lemma {:induction false} InsertContents<T>(x: T, s: seq<T>, leq: (T, T) -> bool)
    ensures multiset(Insert(x, s, leq)) == multiset{x} + multiset(s)
    ensures |Insert(x, s, leq)| == |s| + 1
  {
    if s != [] && !leq(x, s[0]) {
      InsertContents(x, s[1..], leq);
      assert s == [s[0]] + s[1..];
    }
  }

  lemma {:induction false} InsertSorted<T(!new)>(x: T, s: seq<T>, leq: (T, T) -> bool)
    requires TotalOrder(leq) && Sorted(s, leq)
    ensures Sorted(Insert(x, s, leq), leq)
  {
    if s != [] && !leq(x, s[0]) {
      var rest := Insert(x, s[1..], leq);
      InsertSorted(x, s[1..], leq);
      InsertContents(x, s[1..], leq);
      forall j | 0 <= j < |rest| ensures leq(s[0], rest[j]) {
        assert rest[j] in multiset(rest);
        assert rest[j] == x || rest[j] in s[1..];
      }
    }
  }

  lemma {:induction false} SortIsSorted<T(!new)>(s: seq<T>, leq: (T, T) -> bool)
    requires TotalOrder(leq)
    ensures Sorted(SortBy(s, leq), leq)
  {
    if s != [] {
      SortIsSorted(s[1..], leq);
      InsertSorted(s[0], SortBy(s[1..], leq), leq);
    }
  }

  lemma {:induction false} SortContents<T>(s: seq<T>, leq: (T, T) -> bool)
    ensures multiset(SortBy(s, leq)) == multiset(s)
    ensures |SortBy(s, leq)| == |s|
  {
    if s != [] {
      SortContents(s[1..], leq);
      InsertContents(s[0], SortBy(s[1..], leq), leq);
      assert s == [s[0]] + s[1..];
    }
  }

  /** Compare by leq, and by prior where leq ties. */
  function Refine<T>(leq: (T, T) -> bool, prior: (T, T) -> bool): (T, T) -> bool {
    (x, y) => leq(x, y) && (leq(y, x) ==> prior(x, y))
  }

  lemma RefineIsTotal<T(!new)>(leq: (T, T) -> bool, prior: (T, T) -> bool)
    requires TotalOrder(leq) && TotalOrder(prior)
    ensures TotalOrder(Refine(leq, prior))
  {
  }

  lemma {:induction false} InsertRefines<T(!new)>(x: T, s: seq<T>, leq: (T, T) -> bool, prior: (T, T) -> bool)
    requires TotalOrder(leq) && Sorted(s, Refine(leq, prior)) && forall y :: y in s ==> prior(x, y)
    ensures Sorted(Insert(x, s, leq), Refine(leq, prior))
  {
    if s != [] && !leq(x, s[0]) {
      var rest := Insert(x, s[1..], leq);
      InsertRefines(x, s[1..], leq, prior);
      InsertContents(x, s[1..], leq);
      forall j | 0 <= j < |rest| ensures Refine(leq, prior)(s[0], rest[j]) {
        assert rest[j] in multiset(rest);
        assert rest[j] == x || rest[j] in s[1..];
      }
    }
  }

  /** Sorting a list that is in order for prior puts it in order for leq and then prior. */
  lemma {:induction false} SortRefines<T(!new)>(s: seq<T>, leq: (T, T) -> bool, prior: (T, T) -> bool)
    requires TotalOrder(leq) && Sorted(s, prior)
    ensures Sorted(SortBy(s, leq), Refine(leq, prior))
  {
    if s != [] {
      SortRefines(s[1..], leq, prior);
      SortContents(s[1..], leq);
      forall y | y in SortBy(s[1..], leq) ensures prior(s[0], y) {
        assert y in multiset(s[1..]);
      }
      InsertRefines(s[0], SortBy(s[1..], leq), leq, prior);
    }
  }

  /** Two lists sorted alike with the same contents begin alike, where the order has no ties among them. */
  lemma SortedFirst<T(!new)>(a: seq<T>, b: seq<T>, leq: (T, T) -> bool)
    requires TotalOrder(leq) && NoTies(a, leq) && Sorted(a, leq) && Sorted(b, leq)
    requires multiset(a) == multiset(b) && a != []
    ensures b != [] && a[0] == b[0]
  {
    assert a[0] in multiset(b);
    assert b[0] in multiset(a);
    assert leq(a[0], a[0]) && leq(b[0], b[0]);
    assert leq(a[0], b[0]) && leq(b[0], a[0]);
  }

  ghost predicate NoTies<T>(s: seq<T>, leq: (T, T) -> bool) {
    forall x, y :: x in s && y in s && leq(x, y) && leq(y, x) ==> x == y
  }

  /** A sorted arrangement of given contents is unique when the order has no ties among them. */
  lemma {:induction false} SortedUnique<T(!new)>(a: seq<T>, b: seq<T>, leq: (T, T) -> bool)
    requires TotalOrder(leq) && NoTies(a, leq)
    requires Sorted(a, leq) && Sorted(b, leq)
    requires multiset(a) == multiset(b)
    ensures a == b
    decreases |a|
  {
    hide TotalOrder, Sorted, NoTies;
    if a == [] {
      assert |multiset(b)| == 0;
    } else {
      SortedFirst(a, b, leq);
      SortedTail(a, leq);
      SortedTail(b, leq);
      SameTails(a, b);
      SortedUnique(a[1..], b[1..], leq);
      assert a == [a[0]] + a[1..] && b == [b[0]] + b[1..];
    }
  }

  lemma SameTails<T>(a: seq<T>, b: seq<T>)
    requires a != [] && b != [] && a[0] == b[0] && multiset(a) == multiset(b)
    ensures multiset(a[1..]) == multiset(b[1..])
  {
    assert a == [a[0]] + a[1..] && b == [b[0]] + b[1..];
    assert multiset(a[1..]) == multiset(a) - multiset{a[0]};
    assert multiset(b[1..]) == multiset(b) - multiset{b[0]};
  }

  lemma SortedTail<T(!new)>(s: seq<T>, leq: (T, T) -> bool)
    requires Sorted(s, leq) && s != []
    ensures Sorted(s[1..], leq)
    ensures NoTies(s, leq) ==> NoTies(s[1..], leq)
  {
  }

  // ---------------------------------------------------------------- lists without repetition

  ghost predicate Distinct<T>(s: seq<T>) {
    forall i, j :: 0 <= i < j < |s| ==> s[i] != s[j]
  }

  lemma SameContents<T>(a: seq<T>, b: seq<T>)
    requires forall k :: k in a <==> k in b
    requires forall i, j :: 0 <= i < j < |a| ==> a[i] != a[j]
    requires forall i, j :: 0 <= i < j < |b| ==> b[i] != b[j]
    ensures multiset(a) == multiset(b)
  {
    forall k ensures multiset(a)[k] == multiset(b)[k] {
      Multiplicity(a, k);
      Multiplicity(b, k);
    }
  }

  lemma {:induction false} Multiplicity<T>(s: seq<T>, k: T)
    requires forall i, j :: 0 <= i < j < |s| ==> s[i] != s[j]
    ensures multiset(s)[k] == if k in s then 1 else 0
  {
    if s != [] {
      assert s == [s[0]] + s[1..];
      Multiplicity(s[1..], k);
      assert k in s <==> k == s[0] || k in s[1..];
    }
  }

  lemma DistinctFromMultiset<T>(a: seq<T>, b: seq<T>)
    requires multiset(a) == multiset(b)
    requires forall i, j :: 0 <= i < j < |a| ==> a[i] != a[j]
    ensures forall i, j :: 0 <= i < j < |b| ==> b[i] != b[j]
    ensures |a| == |b| && forall k :: k in a <==> k in b
  {
    assert |multiset(a)| == |multiset(b)|;
    forall k ensures k in a <==> k in b {
      assert k in a <==> k in multiset(a);
      assert k in b <==> k in multiset(b);
    }
    forall i, j | 0 <= i < j < |b| ensures b[i] != b[j] {
      if b[i] == b[j] {
        TwiceCounted(b, i, j);
        Multiplicity(a, b[i]);
        assert false;
      }
    }
  }

  lemma TwiceCounted<T>(s: seq<T>, i: nat, j: nat)
    requires i < j < |s| && s[i] == s[j]
    ensures multiset(s)[s[i]] >= 2
  {
    assert s == s[..j] + s[j..];
    assert s[i] in multiset(s[..j]) by { assert s[..j][i] == s[i]; }
    assert s[j] in multiset(s[j..]) by { assert s[j..][0] == s[j]; }
  }

  // ---------------------------------------------------------------- elementwise images

  function Mapped<A, B>(s: seq<A>, f: A -> B): (r: seq<B>)
    ensures |r| == |s|
    ensures forall i :: 0 <= i < |s| ==> r[i] == f(s[i])
  {
    seq(|s|, i requires 0 <= i < |s| => f(s[i]))
  }

  lemma Without<T>(a: seq<T>, b: seq<T>, j: nat)
    requires multiset(a) == multiset(b) && a != [] && j < |b| && b[j] == a[0]
    ensures multiset(a[1..]) == multiset(b[..j] + b[j + 1..])
  {
    assert a == [a[0]] + a[1..];
    assert b == b[..j] + [b[j]] + b[j + 1..];
    assert multiset(a[1..]) == multiset(a) - multiset{a[0]};
    assert multiset(b[..j] + b[j + 1..]) == multiset(b) - multiset{b[j]};
  }

  lemma MappedWithout<A, B>(b: seq<A>, j: nat, f: A -> B)
    requires j < |b|
    ensures multiset(Mapped(b, f)) == multiset{f(b[j])} + multiset(Mapped(b[..j] + b[j + 1..], f))
  {
    assert Mapped(b[..j] + b[j + 1..], f) == Mapped(b[..j], f) + Mapped(b[j + 1..], f);
    assert Mapped(b, f) == Mapped(b[..j], f) + [f(b[j])] + Mapped(b[j + 1..], f);
  }

  /** Rearranging a list rearranges its image. */
  lemma {:induction false} MappedPermutes<A, B>(a: seq<A>, b: seq<A>, f: A -> B)
    requires multiset(a) == multiset(b)
    ensures multiset(Mapped(a, f)) == multiset(Mapped(b, f))
    decreases |a|
  {
    if a == [] {
      assert |multiset(b)| == 0;
    } else {
      assert a[0] in multiset(b);
      var j :| 0 <= j < |b| && b[j] == a[0];
      var rest := b[..j] + b[j + 1..];
      Without(a, b, j);
      MappedPermutes(a[1..], rest, f);
      MappedWithout(b, j, f);
      assert Mapped(a, f) == [f(a[0])] + Mapped(a[1..], f);
    }
  }
}
