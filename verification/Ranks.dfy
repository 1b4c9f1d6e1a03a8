/** Midranks, and the two loops that compute them. */
module Ranks {
  import opened Sums
  import opened Ordering
  import opened Wrappers

  // ---------------------------------------------------------------- counting

  function Count<T>(s: seq<T>, p: T -> bool): nat {
    if s == [] then 0 else (if p(s[0]) then 1 else 0) + Count(s[1..], p)
  }

  lemma {:induction false} CountConcat<T>(a: seq<T>, b: seq<T>, p: T -> bool)
    ensures Count(a + b, p) == Count(a, p) + Count(b, p)
    decreases |a|
  {
    if a == [] {
      assert a + b == b;
    } else {
      assert (a + b)[1..] == a[1..] + b;
      CountConcat(a[1..], b, p);
    }
  }

  lemma CountRemove<T>(b: seq<T>, i: nat, p: T -> bool)
    requires i < |b|
    ensures Count(b, p) == (if p(b[i]) then 1 else 0) + Count(b[..i] + b[i + 1..], p)
  {
    var tail := [b[i]] + b[i + 1..];
    assert b == b[..i] + tail && tail[1..] == b[i + 1..];
    CountConcat(b[..i], tail, p);
    CountConcat(b[..i], b[i + 1..], p);
  }

  /** A count depends only on the contents. */
  lemma {:induction false} CountContents<T>(a: seq<T>, b: seq<T>, p: T -> bool)
    requires multiset(a) == multiset(b)
    ensures Count(a, p) == Count(b, p)
    decreases |a|
  {
    if a == [] {
      assert |multiset(b)| == 0;
    } else {
      assert a[0] in multiset(b);
      var i :| 0 <= i < |b| && b[i] == a[0];
      assert Count(a, p) == (if p(a[0]) then 1 else 0) + Count(a[1..], p);
      hide Count;
      Without(a, b, i);
      CountRemove(b, i, p);
      CountContents(a[1..], b[..i] + b[i + 1..], p);
    }
  }

  lemma {:induction false} CountAll<T>(s: seq<T>, p: T -> bool, flag: bool)
    requires forall i :: 0 <= i < |s| ==> p(s[i]) == flag
    ensures Count(s, p) == if flag then |s| else 0
    decreases |s|
  {
    if s != [] {
      CountAll(s[1..], p, flag);
    }
  }

  lemma {:induction false} CountSame<T, U>(s: seq<T>, p: T -> bool, t: seq<U>, q: U -> bool)
    requires |s| == |t| && forall i :: 0 <= i < |s| ==> p(s[i]) == q(t[i])
    ensures Count(s, p) == Count(t, q)
    decreases |s|
  {
    if s != [] {
      CountSame(s[1..], p, t[1..], q);
    }
  }

  // ---------------------------------------------------------------- midranks

  function Below(v: real): real -> bool {
    x => x < v
  }

  function EqualTo(v: real): real -> bool {
    x => x == v
  }

  function Above(v: real): real -> bool {
    x => x > v
  }

  /** The number of smaller values, plus half of one more than the number of equal ones. */
  function Midrank(values: seq<real>, v: real): real {
    Count(values, Below(v)) as real + (Count(values, EqualTo(v)) + 1) as real / 2.0
  }

  lemma {:induction false} Trichotomy(values: seq<real>, v: real)
    ensures Count(values, Below(v)) + Count(values, EqualTo(v)) + Count(values, Above(v)) == |values|
    decreases |values|
  {
    if values != [] {
      Trichotomy(values[1..], v);
    }
  }

  /** Midranks depend only on the contents, so they move with any permutation. */
  lemma MidrankPermutes(values: seq<real>, permuted: seq<real>, v: real)
    requires multiset(values) == multiset(permuted)
    ensures Midrank(permuted, v) == Midrank(values, v)
  {
    CountContents(values, permuted, Below(v));
    CountContents(values, permuted, EqualTo(v));
  }

  /** A strictly increasing map leaves every midrank unchanged. */
  lemma MidrankMonotone(values: seq<real>, f: real -> real, images: seq<real>, i: nat)
    requires forall x, y :: x < y ==> f(x) < f(y)
    requires |images| == |values| && forall j :: 0 <= j < |values| ==> images[j] == f(values[j])
    requires i < |values|
    ensures Midrank(images, images[i]) == Midrank(values, values[i])
  {
    forall j | 0 <= j < |values|
      ensures Below(images[i])(images[j]) == Below(values[i])(values[j])
      ensures EqualTo(images[i])(images[j]) == EqualTo(values[i])(values[j])
    {
      assert values[j] < values[i] ==> f(values[j]) < f(values[i]);
      assert values[i] < values[j] ==> f(values[i]) < f(values[j]);
    }
    CountSame(images, Below(images[i]), values, Below(values[i]));
    CountSame(images, EqualTo(images[i]), values, EqualTo(values[i]));
  }

  function MidrankList(values: seq<real>, all: seq<real>): (r: seq<real>)
    ensures |r| == |values|
  {
    seq(|values|, i requires 0 <= i < |values| => Midrank(all, values[i]))
  }

  /** Appending a value raises the others' midranks by one for each larger value and half for each equal one. */
  lemma {:induction false} RanksRise(values: seq<real>, all: seq<real>, x: real)
    ensures Sum(MidrankList(values, all + [x]))
         == Sum(MidrankList(values, all)) + Count(values, Above(x)) as real + Count(values, EqualTo(x)) as real / 2.0
    decreases |values|
  {
    if values != [] {
      var n := |values| - 1;
      var v := values[n];
      RanksRise(values[..n], all, x);
      assert MidrankList(values, all + [x])[..n] == MidrankList(values[..n], all + [x]);
      assert MidrankList(values, all)[..n] == MidrankList(values[..n], all);
      CountConcat(all, [x], Below(v));
      CountConcat(all, [x], EqualTo(v));
      assert values == values[..n] + [v];
      CountConcat(values[..n], [v], Above(x));
      CountConcat(values[..n], [v], EqualTo(x));
      CountOne(x, Below(v));
      CountOne(x, EqualTo(v));
      CountOne(v, Above(x));
      CountOne(v, EqualTo(x));
    }
  }

  lemma CountOne(x: real, p: real -> bool)
    ensures Count([x], p) == if p(x) then 1 else 0
  {
  }

  function Triangular(n: nat): real {
    (n * (n + 1)) as real / 2.0
  }

  /** The midranks of any list sum to n(n+1)/2, ties or not. */
  lemma {:induction false} MidranksSum(values: seq<real>)
    ensures Sum(MidrankList(values, values)) == Triangular(|values|)
    decreases |values|
  {
    hide Count, Triangular;
    if values == [] {
      NoneTriangular();
    } else {
      var n := |values| - 1;
      var front, x := values[..n], values[n];
      MidranksSum(front);
      RanksRise(front, front, x);
      assert values == front + [x];
      assert MidrankList(values, values)[..n] == MidrankList(front, values);
      Trichotomy(front, x);
      CountConcat(front, [x], Below(x));
      CountConcat(front, [x], EqualTo(x));
      CountOne(x, Below(x));
      CountOne(x, EqualTo(x));
      NextTriangular(n);
    }
  }

  lemma NoneTriangular()
    ensures Triangular(0) == 0.0
  {
  }

  lemma NextTriangular(n: nat)
    ensures Triangular(n + 1) == Triangular(n) + (n + 1) as real
  {
    assert (n + 1) * (n + 2) == n * (n + 1) + 2 * (n + 1);
  }

  // ---------------------------------------------------------------- tied runs in a sorted list

  /** A maximal run of equal values, from i to j inclusive. */
  ghost predicate IsRun(sorted: seq<real>, i: nat, j: nat) {
    && i <= j < |sorted|
    && (forall k :: i <= k <= j ==> sorted[k] == sorted[i])
    && (forall k :: 0 <= k < i ==> sorted[k] < sorted[i])
    && (forall k :: j < k < |sorted| ==> sorted[k] > sorted[i])
  }

  /** The average 1-based rank of a run is the midrank of its value. */
  lemma RunRank(sorted: seq<real>, i: nat, j: nat)
    requires IsRun(sorted, i, j)
    ensures (i + j) as real / 2.0 + 1.0 == Midrank(sorted, sorted[i])
  {
    var v := sorted[i];
    var a, b, c := sorted[..i], sorted[i..j + 1], sorted[j + 1..];
    assert sorted == a + (b + c);
    CountConcat(a, b + c, Below(v));
    CountConcat(b, c, Below(v));
    CountConcat(a, b + c, EqualTo(v));
    CountConcat(b, c, EqualTo(v));
    CountAll(a, Below(v), true);
    CountAll(b, Below(v), false);
    CountAll(c, Below(v), false);
    CountAll(a, EqualTo(v), false);
    CountAll(b, EqualTo(v), true);
    CountAll(c, EqualTo(v), false);
  }

  // ---------------------------------------------------------------- midranks as the statistics compute them

  function ValueAt(values: seq<real>, i: int): real {
    if 0 <= i < |values| then values[i] else 0.0
  }

  function ByValue(values: seq<real>): (int, int) -> bool {
    (a, b) => ValueAt(values, a) <= ValueAt(values, b)
  }

  function Pick(values: seq<real>, order: seq<int>): (s: seq<real>)
    ensures |s| == |order|
  {
    seq(|order|, k requires 0 <= k < |order| => ValueAt(values, order[k]))
  }

  function Indices(n: nat): (s: seq<int>)
    ensures |s| == n
  {
    seq(n, i => i)
  }

  /** The positions of a list in stable ascending order of their values. */
  function ValueOrder(values: seq<real>): seq<int> {
    SortBy(Indices(|values|), ByValue(values))
  }

  lemma ValueOrderFacts(values: seq<real>)
    ensures var order := ValueOrder(values);
            && |order| == |values|
            && (forall k :: 0 <= k < |order| ==> 0 <= order[k] < |values|)
            && (forall i :: 0 <= i < |values| ==> i in order)
            && (forall a, b :: 0 <= a < b < |order| ==> Pick(values, order)[a] <= Pick(values, order)[b])
  {
    var n, leq := |values|, ByValue(values);
    var idx := Indices(n);
    var order := ValueOrder(values);
    SortContents(idx, leq);
    SortIsSorted(idx, leq);
    forall k | 0 <= k < n ensures 0 <= order[k] < n {
      assert order[k] in multiset(idx);
    }
    forall i | 0 <= i < n ensures i in order {
      assert idx[i] == i;
      assert i in multiset(order);
    }
    forall a, b | 0 <= a < b < n ensures Pick(values, order)[a] <= Pick(values, order)[b] {
      assert leq(order[a], order[b]);
    }
  }

  lemma PickMidrank(values: seq<real>, v: real)
    ensures Midrank(Pick(values, ValueOrder(values)), v) == Midrank(values, v)
  {
    SortContents(Indices(|values|), ByValue(values));
    PickCounts(values, ValueOrder(values), Below(v));
    PickCounts(values, ValueOrder(values), EqualTo(v));
  }

  lemma PickCounts(values: seq<real>, order: seq<int>, p: real -> bool)
    requires multiset(order) == multiset(Indices(|values|)) && |order| == |values|
    ensures Count(Pick(values, order), p) == Count(values, p)
  {
    var q: int -> bool := i => p(ValueAt(values, i));
    CountSame(Pick(values, order), p, order, q);
    CountContents(order, Indices(|values|), q);
    forall i | 0 <= i < |values| ensures q(Indices(|values|)[i]) == p(values[i]) {
      assert Indices(|values|)[i] == i && ValueAt(values, i) == values[i];
    }
    CountSame(Indices(|values|), q, values, p);
  }

  /** One list position after the last of the run that starts at i. */
  method RunEnd(sorted: seq<real>, i: nat) returns (j: nat)
    requires i < |sorted|
    requires forall a, b :: 0 <= a < b < |sorted| ==> sorted[a] <= sorted[b]
    requires i > 0 ==> sorted[i - 1] < sorted[i]
    ensures IsRun(sorted, i, j)
  {
    j := i;
    while j + 1 < |sorted| && sorted[j + 1] == sorted[i]
      invariant i <= j < |sorted|
      invariant forall k :: i <= k <= j ==> sorted[k] == sorted[i]
    {
      j := j + 1;
    }
    RunCloses(sorted, i, j);
  }

  /** Midranks of a list: each position gets the average rank of its tied run. */
  method Midranks(values: seq<real>) returns (ranks: seq<real>)
    ensures |ranks| == |values|
    ensures forall i :: 0 <= i < |values| ==> ranks[i] == Midrank(values, values[i])
  {
    hide Midrank, ValueOrder, IsRun;
    var n := |values|;
    var order := ValueOrder(values);
    ValueOrderFacts(values);
    ranks := seq(n, _ => 0.0);
    var sorted := Pick(values, order);
    var i := 0;
    while i < n
      invariant i <= n && |ranks| == n
      invariant 0 < i < n ==> sorted[i - 1] < sorted[i]
      invariant forall k :: 0 <= k < i ==> ranks[order[k]] == Midrank(values, values[order[k]])
    {
      var j := RunEnd(sorted, i);
      RunFacts(sorted, i, j);
      var avg := (i + j) as real / 2.0 + 1.0;
      assert avg == Midrank(values, sorted[i]) by {
        RunRank(sorted, i, j);
        PickMidrank(values, sorted[i]);
      }
      for k := i to j + 1
        invariant |ranks| == n
        invariant forall m :: 0 <= m < k ==> ranks[order[m]] == Midrank(values, values[order[m]])
      {
        assert values[order[k]] == sorted[k] == sorted[i];
        ranks := ranks[order[k] := avg];
      }
      i := j + 1;
    }
    forall p | 0 <= p < n ensures ranks[p] == Midrank(values, values[p]) {
      assert p in order;
      var k :| 0 <= k < |order| && order[k] == p;
    }
  }

  lemma RunFacts(sorted: seq<real>, i: nat, j: nat)
    requires IsRun(sorted, i, j)
    ensures i <= j < |sorted|
    ensures forall k :: i <= k <= j ==> sorted[k] == sorted[i]
    ensures j + 1 < |sorted| ==> sorted[j] < sorted[j + 1]
  {
  }

  // ---------------------------------------------------------------- rank normalisation of a cross-section

  datatype Direction = HighestFirst | LowestFirst

  datatype TieRule = BySecurityId | Average

  /** The value ranked on: negated when rank 1 is the highest. */
  function Signed(direction: Direction, v: real): real {
    if direction == HighestFirst then -v else v
  }

  predicate KeyLeq(values: map<Id, real>, direction: Direction, a: Id, b: Id) {
    var x, y := Signed(direction, At(values, a)), Signed(direction, At(values, b));
    x < y || (x == y && IdLeq(a, b))
  }

  function ByKey(values: map<Id, real>, direction: Direction): (Id, Id) -> bool {
    (a, b) => KeyLeq(values, direction, a, b)
  }

  lemma KeyOrderIsTotal(values: map<Id, real>, direction: Direction)
    ensures TotalOrder(ByKey(values, direction)) && Antisymmetric(ByKey(values, direction))
  {
    IdOrderIsTotal();
    var leq := ByKey(values, direction);
    forall a, b ensures leq(a, b) || leq(b, a) {
      assert IdLeq(a, b) || IdLeq(b, a);
    }
    forall a, b, c | leq(a, b) && leq(b, c) ensures leq(a, c) {
      assert IdLeq(a, b) && IdLeq(b, c) ==> IdLeq(a, c);
    }
  }

  /** The values with coverage: present and finite. */
  function Covered(values: map<Id, Option<real>>): map<Id, real> {
    map k | k in values && values[k].Some? :: values[k].value
  }

  /** The covered values in the order the ids are listed. */
  function ValueList(values: map<Id, real>, ids: seq<Id>): (s: seq<real>)
    ensures |s| == |ids|
  {
    seq(|ids|, i requires 0 <= i < |ids| => At(values, ids[i]))
  }

  /** Covered ids in the order they are ranked. */
  function RankOrder(values: map<Id, real>, ids: seq<Id>, direction: Direction): seq<Id> {
    SortBy(ids, ByKey(values, direction))
  }

  function SignedList(values: map<Id, real>, ids: seq<Id>, direction: Direction): (s: seq<real>)
    ensures |s| == |ids|
  {
    seq(|ids|, i requires 0 <= i < |ids| => Signed(direction, At(values, ids[i])))
  }

  lemma RankOrderFacts(values: map<Id, real>, ids: seq<Id>, direction: Direction)
    ensures var order := RankOrder(values, ids, direction);
            && |order| == |ids|
            && (forall k :: k in order <==> k in ids)
            && (forall a, b :: 0 <= a < b < |order| ==> KeyLeq(values, direction, order[a], order[b]))
            && multiset(order) == multiset(ids)
  {
    hide KeyLeq;
    var leq := ByKey(values, direction);
    KeyOrderIsTotal(values, direction);
    SortContents(ids, leq);
    SortIsSorted(ids, leq);
    var order := RankOrder(values, ids, direction);
    forall k ensures k in order <==> k in ids {
      assert k in order <==> k in multiset(order);
      assert k in ids <==> k in multiset(ids);
    }
    forall a, b | 0 <= a < b < |order| ensures KeyLeq(values, direction, order[a], order[b]) {
      assert leq(order[a], order[b]);
    }
  }

  lemma SignedAscending(values: map<Id, real>, ids: seq<Id>, direction: Direction)
    ensures var sorted := SignedList(values, RankOrder(values, ids, direction), direction);
            forall a, b :: 0 <= a < b < |sorted| ==> sorted[a] <= sorted[b]
  {
    RankOrderFacts(values, ids, direction);
    var order := RankOrder(values, ids, direction);
    var sorted := SignedList(values, order, direction);
    forall a, b | 0 <= a < b < |sorted| ensures sorted[a] <= sorted[b] {
      assert KeyLeq(values, direction, order[a], order[b]);
    }
  }

  lemma OrderMidrank(values: map<Id, real>, ids: seq<Id>, direction: Direction, v: real)
    ensures Midrank(SignedList(values, RankOrder(values, ids, direction), direction), v)
         == Midrank(SignedList(values, ids, direction), v)
  {
    RankOrderFacts(values, ids, direction);
    SignedCounts(values, RankOrder(values, ids, direction), ids, direction, Below(v));
    SignedCounts(values, RankOrder(values, ids, direction), ids, direction, EqualTo(v));
  }

  lemma SignedCounts(values: map<Id, real>, order: seq<Id>, ids: seq<Id>, direction: Direction, p: real -> bool)
    requires multiset(order) == multiset(ids)
    ensures Count(SignedList(values, order, direction), p) == Count(SignedList(values, ids, direction), p)
  {
    var q: Id -> bool := k => p(Signed(direction, At(values, k)));
    CountSame(SignedList(values, order, direction), p, order, q);
    CountContents(order, ids, q);
    CountSame(ids, q, SignedList(values, ids, direction), p);
  }

  /** Negating every value turns a midrank r into n + 1 - r. */
  lemma MidrankReverses(values: map<Id, real>, ids: seq<Id>, v: real)
    ensures Midrank(SignedList(values, ids, HighestFirst), -v) == |ids| as real + 1.0 - Midrank(ValueList(values, ids), v)
  {
    var negated, plain := SignedList(values, ids, HighestFirst), ValueList(values, ids);
    CountSame(negated, Below(-v), plain, Above(v));
    CountSame(negated, EqualTo(-v), plain, EqualTo(v));
    Trichotomy(plain, v);
  }

  lemma MidrankKeeps(values: map<Id, real>, ids: seq<Id>)
    ensures SignedList(values, ids, LowestFirst) == ValueList(values, ids)
  {
  }

  /** The rank an id is due under averaged ties: the midrank, or its mirror image when rank 1 is the highest. */
  function AverageRank(values: map<Id, real>, ids: seq<Id>, direction: Direction, k: Id): real {
    var r := Midrank(ValueList(values, ids), At(values, k));
    if direction == LowestFirst then r else |ids| as real + 1.0 - r
  }

  /** The ids that rank strictly before a given one. */
  function Before(values: map<Id, real>, direction: Direction, k: Id): Id -> bool {
    j => j != k && KeyLeq(values, direction, j, k)
  }

  /** The rank an id is due under the id tie rule: one more than the number of ids before it. */
  function IdRank(values: map<Id, real>, ids: seq<Id>, direction: Direction, k: Id): nat {
    Count(ids, Before(values, direction, k)) + 1
  }

  lemma RunIsAverageRank(values: map<Id, real>, ids: seq<Id>, direction: Direction, i: nat, j: nat, k: nat)
    requires var order := RankOrder(values, ids, direction);
             |order| == |ids| && IsRun(SignedList(values, order, direction), i, j) && i <= k <= j
    ensures (i + j) as real / 2.0 + 1.0 == AverageRank(values, ids, direction, RankOrder(values, ids, direction)[k])
  {
    hide Midrank;
    var order := RankOrder(values, ids, direction);
    var sorted := SignedList(values, order, direction);
    assert sorted[k] == sorted[i];
    RunRank(sorted, i, j);
    OrderMidrank(values, ids, direction, sorted[i]);
    MidrankKeeps(values, ids);
    MidrankReverses(values, ids, At(values, order[k]));
  }

  lemma PositionIsIdRank(values: map<Id, real>, ids: seq<Id>, direction: Direction, i: nat)
    requires Distinct(ids)
    requires i < |RankOrder(values, ids, direction)|
    ensures IdRank(values, ids, direction, RankOrder(values, ids, direction)[i]) == i + 1
  {
    var order := RankOrder(values, ids, direction);
    var k := order[i];
    var before := Before(values, direction, k);
    RankOrderFacts(values, ids, direction);
    KeyOrderIsTotal(values, direction);
    DistinctFromMultiset(ids, order);
    CountContents(ids, order, before);
    assert order == order[..i] + order[i..];
    CountConcat(order[..i], order[i..], before);
    forall a | 0 <= a < i ensures before(order[..i][a]) {
      assert order[a] != order[i] && KeyLeq(values, direction, order[a], order[i]);
    }
    forall b | 0 <= b < |order[i..]| ensures !before(order[i..][b]) {
      if b > 0 {
        assert KeyLeq(values, direction, order[i], order[i + b]);
        assert ByKey(values, direction)(order[i], order[i + b]);
      }
    }
    CountAll(order[..i], before, true);
    CountAll(order[i..], before, false);
  }

  /** What rank normalisation gives every covered id: its rank over the covered count. */
  ghost predicate IsNormalized(
      scores: map<Id, real>, values: map<Id, real>, ids: seq<Id>, direction: Direction, tieRule: TieRule)
  {
    && (forall k :: k in scores <==> k in ids)
    && forall k :: k in scores ==>
         scores[k] == (if tieRule == Average then AverageRank(values, ids, direction, k)
                       else IdRank(values, ids, direction, k) as real) / |ids| as real
  }

  /** The covered ids of a listing of the cross-section. */
  function CoveredIds(values: map<Id, Option<real>>, ids: seq<Id>): seq<Id> {
    if ids == [] then [] else
    var n := |ids| - 1;
    CoveredIds(values, ids[..n]) + if ids[n] in Covered(values) then [ids[n]] else []
  }

  lemma {:induction false} CoveredIdsFacts(values: map<Id, Option<real>>, ids: seq<Id>)
    requires Distinct(ids)
    ensures var c := CoveredIds(values, ids);
            && (forall k :: k in c <==> k in ids && k in Covered(values))
            && Distinct(c)
    decreases |ids|
  {
    if ids != [] {
      var n := |ids| - 1;
      CoveredIdsFacts(values, ids[..n]);
      assert ids[n] !in ids[..n];
    }
  }

  lemma CoveredKeys(values: map<Id, Option<real>>)
    ensures Covered(values).Keys <= values.Keys
  {
  }

  /** Rank-normalises one cross-section; ids lists its keys in dictionary order. Missing values are left out, and
      neither tie rule depends on the listing. */
  method RankNormalize(values: map<Id, Option<real>>, ids: seq<Id>, direction: Direction, tieRule: TieRule)
    returns (scores: map<Id, real>)
    requires forall k :: k in ids <==> k in values
    requires Distinct(ids)
    ensures IsNormalized(scores, Covered(values), CoveredIds(values, ids), direction, tieRule)
    ensures scores.Keys == Covered(values).Keys
  {
    hide KeyLeq, AverageRank, IdRank, RankOrder, CoveredIds, Covered, Distinct;
    var covered, list := Covered(values), CoveredIds(values, ids);
    CoveredIdsFacts(values, ids);
    CoveredKeys(values);
    if |list| == 0 {
      return map[];
    }
    RankOrderFacts(covered, list, direction);
    if tieRule == BySecurityId {
      scores := PositionScores(covered, list, direction);
    } else {
      scores := AverageScores(covered, list, direction);
    }
  }

  method PositionScores(values: map<Id, real>, ids: seq<Id>, direction: Direction) returns (scores: map<Id, real>)
    requires ids != [] && Distinct(ids)
    ensures IsNormalized(scores, values, ids, direction, BySecurityId)
  {
    hide KeyLeq, IdRank, RankOrder;
    var ordered := RankOrder(values, ids, direction);
    RankOrderFacts(values, ids, direction);
    scores := map[];
    for position := 0 to |ordered|
      invariant forall k :: k in scores <==> k in ordered[..position]
      invariant forall k :: k in scores ==> scores[k] == IdRank(values, ids, direction, k) as real / |ids| as real
    {
      PositionIsIdRank(values, ids, direction, position);
      assert ordered[..position + 1] == ordered[..position] + [ordered[position]];
      scores := scores[ordered[position] := (position + 1) as real / |ids| as real];
    }
    assert ordered[..|ordered|] == ordered;
  }

  /** The scores of the first m ranked ids, under averaged ties. */
  ghost predicate ScoredUpTo(scores: map<Id, real>, values: map<Id, real>, ids: seq<Id>, direction: Direction, m: nat)
    requires m <= |RankOrder(values, ids, direction)|
  {
    && (forall k :: k in scores <==> k in RankOrder(values, ids, direction)[..m])
    && forall k :: k in scores ==> scores[k] == Times(AverageRank(values, ids, direction, k), 1.0 / |ids| as real)
  }

  lemma ScoreNext(scores: map<Id, real>, values: map<Id, real>, ids: seq<Id>, direction: Direction, m: nat, score: real)
    requires m < |RankOrder(values, ids, direction)| && ScoredUpTo(scores, values, ids, direction, m) && ids != []
    requires score == Times(AverageRank(values, ids, direction, RankOrder(values, ids, direction)[m]), 1.0 / |ids| as real)
    ensures ScoredUpTo(scores[RankOrder(values, ids, direction)[m] := score], values, ids, direction, m + 1)
  {
    hide AverageRank, RankOrder, Times;
    var ordered := RankOrder(values, ids, direction);
    assert ordered[..m + 1] == ordered[..m] + [ordered[m]];
  }

  lemma AllScored(scores: map<Id, real>, values: map<Id, real>, ids: seq<Id>, direction: Direction)
    requires ids != [] && |RankOrder(values, ids, direction)| == |ids|
    requires ScoredUpTo(scores, values, ids, direction, |ids|)
    ensures IsNormalized(scores, values, ids, direction, Average)
  {
    hide AverageRank, Times;
    RankOrderFacts(values, ids, direction);
    var ordered := RankOrder(values, ids, direction);
    assert ordered[..|ids|] == ordered;
    forall k | k in scores ensures scores[k] == AverageRank(values, ids, direction, k) / |ids| as real {
      OverCount(AverageRank(values, ids, direction, k), |ids| as real);
    }
  }

  lemma OverCount(x: real, n: real)
    requires n > 0.0
    ensures Times(x, 1.0 / n) == x / n
  {
    var inv, q := 1.0 / n, x / n;
    assert Times(inv, n) == 1.0 && Times(q, n) == x;
    assert Times(Times(x, inv), n) == Times(x, Times(inv, n));
    assert Times(x, 1.0) == x;
    assert Times(x, inv) == Times(x, inv) * n / n;
  }

  method AverageScores(values: map<Id, real>, ids: seq<Id>, direction: Direction) returns (scores: map<Id, real>)
    requires ids != []
    ensures IsNormalized(scores, values, ids, direction, Average)
  {
    hide KeyLeq, AverageRank, RankOrder, IsRun, ScoredUpTo, Times;
    var n := |ids|;
    var ordered := RankOrder(values, ids, direction);
    RankOrderFacts(values, ids, direction);
    SignedAscending(values, ids, direction);
    ghost var sorted := SignedList(values, ordered, direction);
    scores := map[];
    NoScores(values, ids, direction);
    var start := 0;
    while start < n
      invariant start <= n
      invariant 0 < start < n ==> sorted[start - 1] < sorted[start]
      invariant ScoredUpTo(scores, values, ids, direction, start)
    {
      var end := TieEnd(values, ids, direction, start);
      RunFacts(sorted, start, end);
      var shared := ((start + 1) + (end + 1)) as real / 2.0 / n as real;
      for position := start to end + 1
        invariant ScoredUpTo(scores, values, ids, direction, position)
      {
        RunIsAverageRank(values, ids, direction, start, end, position);
        OverCount((start + end) as real / 2.0 + 1.0, n as real);
        ScoreNext(scores, values, ids, direction, position, shared);
        scores := scores[ordered[position] := shared];
      }
      start := end + 1;
    }
    AllScored(scores, values, ids, direction);
  }

  lemma NoScores(values: map<Id, real>, ids: seq<Id>, direction: Direction)
    ensures ScoredUpTo(map[], values, ids, direction, 0)
  {
  }

  /** The last position of the tied run that starts at `start`. */
  method TieEnd(values: map<Id, real>, ids: seq<Id>, direction: Direction, start: nat) returns (end: nat)
    requires start < |ids| == |RankOrder(values, ids, direction)|
    requires var sorted := SignedList(values, RankOrder(values, ids, direction), direction);
             && (forall a, b :: 0 <= a < b < |sorted| ==> sorted[a] <= sorted[b])
             && (start > 0 ==> sorted[start - 1] < sorted[start])
    ensures IsRun(SignedList(values, RankOrder(values, ids, direction), direction), start, end)
  {
    hide RankOrder;
    var ordered := RankOrder(values, ids, direction);
    ghost var sorted := SignedList(values, ordered, direction);
    end := start;
    while end + 1 < |ordered| && At(values, ordered[end + 1]) == At(values, ordered[start])
      invariant start <= end < |ordered|
      invariant forall k :: start <= k <= end ==> sorted[k] == sorted[start]
    {
      end := end + 1;
    }
    RunCloses(sorted, start, end);
  }

  lemma RunCloses(sorted: seq<real>, i: nat, j: nat)
    requires i <= j < |sorted|
    requires forall a, b :: 0 <= a < b < |sorted| ==> sorted[a] <= sorted[b]
    requires i > 0 ==> sorted[i - 1] < sorted[i]
    requires forall k :: i <= k <= j ==> sorted[k] == sorted[i]
    requires j + 1 < |sorted| ==> sorted[j + 1] != sorted[i]
    ensures IsRun(sorted, i, j)
  {
    forall k | 0 <= k < i ensures sorted[k] < sorted[i] {
      if k < i - 1 { assert sorted[k] <= sorted[i - 1]; }
    }
    forall k | j < k < |sorted| ensures sorted[k] > sorted[i] {
      assert sorted[i] <= sorted[j + 1];
      if j + 1 < k { assert sorted[j + 1] <= sorted[k]; }
    }
  }

  /** Averaged-tie normalisation is the midrank over the count, mirrored when rank 1 is the highest. */
  lemma ImplementationsAgree(scores: map<Id, real>, values: map<Id, real>, ids: seq<Id>, ranks: seq<real>, direction: Direction, i: nat)
    requires IsNormalized(scores, values, ids, direction, Average) && i < |ids|
    requires |ranks| == |ids| && forall j :: 0 <= j < |ids| ==> ranks[j] == Midrank(ValueList(values, ids), ValueList(values, ids)[j])
    ensures ids[i] in scores
    ensures scores[ids[i]] == (if direction == LowestFirst then ranks[i] else |ids| as real + 1.0 - ranks[i]) / |ids| as real
  {
    hide Midrank;
    assert ids[i] in ids;
    assert ValueList(values, ids)[i] == At(values, ids[i]);
  }

  /** Both loops on one cross-section: the scores of one are the ranks of the other over the count. */
  method RankBothWays(values: map<Id, real>, ids: seq<Id>, direction: Direction)
    returns (ranks: seq<real>, scores: map<Id, real>)
    requires ids != []
    ensures |ranks| == |ids| && forall k :: k in ids ==> k in scores
    ensures forall i :: 0 <= i < |ids| ==>
              scores[ids[i]] == (if direction == LowestFirst then ranks[i] else |ids| as real + 1.0 - ranks[i]) / |ids| as real
  {
    hide IsNormalized, Midrank;
    ranks := Midranks(ValueList(values, ids));
    scores := AverageScores(values, ids, direction);
    forall i | 0 <= i < |ids|
      ensures ids[i] in scores
      ensures scores[ids[i]] == (if direction == LowestFirst then ranks[i] else |ids| as real + 1.0 - ranks[i]) / |ids| as real
    {
      ImplementationsAgree(scores, values, ids, ranks, direction, i);
    }
  }

  /** Listing the same ids in another order changes no score. */
  lemma ListingIrrelevant(values: map<Id, real>, ids: seq<Id>, other: seq<Id>, direction: Direction, k: Id)
    requires multiset(ids) == multiset(other)
    ensures AverageRank(values, other, direction, k) == AverageRank(values, ids, direction, k)
    ensures IdRank(values, other, direction, k) == IdRank(values, ids, direction, k)
  {
    MidrankKeeps(values, ids);
    MidrankKeeps(values, other);
    SignedCounts(values, ids, other, LowestFirst, Below(At(values, k)));
    SignedCounts(values, ids, other, LowestFirst, EqualTo(At(values, k)));
    CountContents(ids, other, Before(values, direction, k));
    assert |multiset(ids)| == |multiset(other)|;
  }
}
