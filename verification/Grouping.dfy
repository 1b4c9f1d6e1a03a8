/** Picking out, and grouping, the members of a list by a key: dict.setdefault(key, []).append(x). */
module Grouping {
  import opened Ordering

  /** The members of s with key k, in the order of s. */
  function Having<R, K(==)>(s: seq<R>, key: R -> K, k: K): seq<R> {
    if s == [] then [] else
    var n := |s| - 1;
    Having(s[..n], key, k) + if key(s[n]) == k then [s[n]] else []
  }

  /** The members of s whose key is one of ks. */
  function HavingAny<R, K(==)>(s: seq<R>, key: R -> K, ks: set<K>): seq<R> {
    if s == [] then [] else
    var n := |s| - 1;
    HavingAny(s[..n], key, ks) + if key(s[n]) in ks then [s[n]] else []
  }

  lemma HavingAppend<R, K>(s: seq<R>, x: R, key: R -> K, k: K)
    ensures Having(s + [x], key, k) == Having(s, key, k) + if key(x) == k then [x] else []
  {
    assert (s + [x])[..|s|] == s;
  }

  lemma {:induction false} HavingConcat<R, K>(a: seq<R>, b: seq<R>, key: R -> K, k: K)
    ensures Having(a + b, key, k) == Having(a, key, k) + Having(b, key, k)
    decreases |b|
  {
    if b == [] {
      assert a + b == a;
    } else {
      var m := |b| - 1;
      HavingConcat(a, b[..m], key, k);
      assert b == b[..m] + [b[m]];
      assert a + b == a + b[..m] + [b[m]];
      hide Having;
      HavingAppend(a + b[..m], b[m], key, k);
      HavingAppend(b[..m], b[m], key, k);
    }
  }

  /** Filtering twice is filtering by the pair of keys. */
  lemma {:induction false} HavingTwice<R, K, L>(s: seq<R>, key: R -> K, k: K, other: R -> L, l: L, both: R -> (K, L))
    requires forall x :: x in s ==> both(x) == (key(x), other(x))
    ensures Having(Having(s, key, k), other, l) == Having(s, both, (k, l))
    decreases |s|
  {
    if s != [] {
      hide Having;
      var n := |s| - 1;
      var init, x := s[..n], s[n];
      assert s == init + [x];
      HavingTwice(init, key, k, other, l, both);
      HavingAppend(init, x, key, k);
      HavingAppend(init, x, both, (k, l));
      HavingAppend(Having(init, key, k), x, other, l);
      assert Having(init, key, k) + [] == Having(init, key, k);
      assert Having(init, both, (k, l)) + [] == Having(init, both, (k, l));
    } else {
      assert Having(s, key, k) == s;
    }
  }

  // ---------------------------------------------------------------- stability of the sort

  /** All members with key k tie. */
  ghost predicate Tie<R, K>(s: seq<R>, leq: (R, R) -> bool, key: R -> K, k: K) {
    forall x, y :: x in s && y in s && key(x) == k && key(y) == k ==> leq(x, y)
  }

  lemma {:induction false} InsertIsStable<R, K>(x: R, s: seq<R>, leq: (R, R) -> bool, key: R -> K, k: K)
    requires key(x) == k ==> forall y :: y in s && key(y) == k ==> leq(x, y)
    ensures Having(Insert(x, s, leq), key, k) == Having([x] + s, key, k)
    decreases |s|
  {
    if s != [] && !leq(x, s[0]) {
      InsertIsStable(x, s[1..], leq, key, k);
      assert s == [s[0]] + s[1..];
      PastAnother(x, s[0], s[1..], Insert(x, s[1..], leq), key, k);
    }
  }

  /** Passing a member of another key. */
  lemma PastAnother<R, K>(x: R, y: R, rest: seq<R>, placed: seq<R>, key: R -> K, k: K)
    requires key(x) == k ==> key(y) != k
    requires Having(placed, key, k) == Having([x] + rest, key, k)
    ensures Having([y] + placed, key, k) == Having([x] + ([y] + rest), key, k)
  {
    HavingOne(x, key, k);
    HavingOne(y, key, k);
    hide Having;
    HavingConcat([y], placed, key, k);
    HavingConcat([x], rest, key, k);
    HavingConcat([x], [y] + rest, key, k);
    HavingConcat([y], rest, key, k);
  }

  lemma HavingOne<R, K>(x: R, key: R -> K, k: K)
    ensures Having([x], key, k) == if key(x) == k then [x] else []
  {
    assert [x][..0] == [];
  }

  /** Sorting keeps the order of members that tie. */
  lemma {:induction false} SortIsStable<R, K>(s: seq<R>, leq: (R, R) -> bool, key: R -> K, k: K)
    requires Tie(s, leq, key, k)
    ensures Having(SortBy(s, leq), key, k) == Having(s, key, k)
    decreases |s|
  {
    if s != [] {
      var x, rest := s[0], s[1..];
      assert s == [x] + rest;
      SortIsStable(rest, leq, key, k);
      SortContents(rest, leq);
      forall y | key(x) == k && y in SortBy(rest, leq) && key(y) == k ensures leq(x, y) {
        assert y in multiset(SortBy(rest, leq)) && y in multiset(rest);
      }
      InsertIsStable(x, SortBy(rest, leq), leq, key, k);
      hide Having, SortBy;
      HavingConcat([x], SortBy(rest, leq), key, k);
      HavingConcat([x], rest, key, k);
    }
  }

  lemma {:induction false} HavingCounts<R, K>(s: seq<R>, key: R -> K, k: K, x: R)
    ensures multiset(Having(s, key, k))[x] == if key(x) == k then multiset(s)[x] else 0
    decreases |s|
  {
    if s != [] {
      var n := |s| - 1;
      HavingCounts(s[..n], key, k, x);
      assert s == s[..n] + [s[n]];
    }
  }

  lemma HavingMembers<R, K>(s: seq<R>, key: R -> K, k: K)
    ensures forall x :: x in Having(s, key, k) <==> x in s && key(x) == k
  {
    hide Having;
    forall x ensures x in Having(s, key, k) <==> x in s && key(x) == k {
      HavingCounts(s, key, k, x);
      assert x in s <==> x in multiset(s);
      assert x in Having(s, key, k) <==> x in multiset(Having(s, key, k));
    }
  }

  lemma SameLength<T>(a: seq<T>, b: seq<T>)
    requires multiset(a) == multiset(b)
    ensures |a| == |b|
  {
    assert |multiset(a)| == |multiset(b)|;
  }

  lemma SameCounts<T>(a: multiset<T>, b: multiset<T>)
    requires forall x :: a[x] == b[x]
    ensures a == b
  {
  }

  /** Rearranging a list rearranges each of its groups. */
  lemma HavingPermutes<R, K>(a: seq<R>, b: seq<R>, key: R -> K, k: K)
    requires multiset(a) == multiset(b)
    ensures multiset(Having(a, key, k)) == multiset(Having(b, key, k))
    ensures |Having(a, key, k)| == |Having(b, key, k)|
  {
    hide Having;
    var ha, hb := Having(a, key, k), Having(b, key, k);
    forall x ensures multiset(ha)[x] == multiset(hb)[x] {
      HavingCounts(a, key, k, x);
      HavingCounts(b, key, k, x);
    }
    SameCounts(multiset(ha), multiset(hb));
    SameLength(ha, hb);
  }

  lemma {:induction false} OneMoreKey<R, K>(s: seq<R>, key: R -> K, ks: set<K>, k: K)
    requires k !in ks
    ensures multiset(HavingAny(s, key, ks + {k})) == multiset(HavingAny(s, key, ks)) + multiset(Having(s, key, k))
    ensures |HavingAny(s, key, ks + {k})| == |HavingAny(s, key, ks)| + |Having(s, key, k)|
    decreases |s|
  {
    if s != [] {
      OneMoreKey(s[..|s| - 1], key, ks, k);
    }
  }

  lemma {:induction false} AllKeys<R, K>(s: seq<R>, key: R -> K, ks: set<K>)
    requires forall x :: x in s ==> key(x) in ks
    ensures HavingAny(s, key, ks) == s
    decreases |s|
  {
    if s != [] {
      var n := |s| - 1;
      AllKeys(s[..n], key, ks);
      assert s[n] in s;
      assert s == s[..n] + [s[n]];
    }
  }

  lemma {:induction false} NoKeys<R, K>(s: seq<R>, key: R -> K)
    ensures HavingAny(s, key, {}) == []
    decreases |s|
  {
    if s != [] {
      NoKeys(s[..|s| - 1], key);
    }
  }

  /** The groups of a list: every key that occurs, with its members in order. */
  ghost predicate Groups<R, K(!new)>(groups: map<K, seq<R>>, s: seq<R>, key: R -> K) {
    && (forall k :: k in groups <==> Having(s, key, k) != [])
    && (forall k :: k in groups ==> groups[k] == Having(s, key, k))
  }

  lemma GroupOne<R, K(!new)>(groups: map<K, seq<R>>, s: seq<R>, x: R, key: R -> K)
    requires Groups(groups, s, key)
    ensures Groups(groups[key(x) := (if key(x) in groups then groups[key(x)] else []) + [x]], s + [x], key)
  {
    hide Having;
    forall k ensures Having(s + [x], key, k) == Having(s, key, k) + if key(x) == k then [x] else [] {
      HavingAppend(s, x, key, k);
    }
  }

  lemma NoGroups<R, K(!new)>(key: R -> K)
    ensures Groups(map[], [], key)
  {
  }

  /** Every member belongs to a group. */
  lemma EveryMemberGrouped<R, K(!new)>(groups: map<K, seq<R>>, s: seq<R>, key: R -> K)
    requires Groups(groups, s, key)
    ensures forall x :: x in s ==> key(x) in groups
  {
    hide Having;
    forall x | x in s ensures key(x) in groups {
      HavingMembers(s, key, key(x));
    }
  }

  /** Groups a list by a key, with the keys in the order they are first met. */
  method GroupBy<R, K(==, !new)>(s: seq<R>, key: R -> K) returns (groups: map<K, seq<R>>, order: seq<K>)
    ensures Groups(groups, s, key)
    ensures forall k :: k in order <==> k in groups
    ensures forall i, j :: 0 <= i < j < |order| ==> order[i] != order[j]
  {
    hide Groups;
    groups, order := map[], [];
    NoGroups(key);
    for i := 0 to |s|
      invariant Groups(groups, s[..i], key)
      invariant forall k :: k in order <==> k in groups
      invariant forall i, j :: 0 <= i < j < |order| ==> order[i] != order[j]
    {
      var x := s[i];
      var k := key(x);
      assert s[..i + 1] == s[..i] + [x];
      GroupOne(groups, s[..i], x, key);
      if k !in groups {
        order := order + [k];
      }
      groups := groups[k := (if k in groups then groups[k] else []) + [x]];
    }
    assert s[..|s|] == s;
  }
}
