/** Equal-count fractiles with the pinned tie rule. */
module Fractiles {
  import opened Sums
  import opened Ordering
  import opened Wrappers

  datatype FractileError = TooFewFractiles | UniverseTooSmall

  // ---------------------------------------------------------------- the order

  predicate ScoreLeq(scores: map<Id, real>, a: Id, b: Id) {
    At(scores, a) < At(scores, b) || (At(scores, a) == At(scores, b) && IdLeq(a, b))
  }

  function ByScore(scores: map<Id, real>): (Id, Id) -> bool {
    (a, b) => ScoreLeq(scores, a, b)
  }

  lemma ScoreOrderIsTotal(scores: map<Id, real>)
    ensures TotalOrder(ByScore(scores)) && Antisymmetric(ByScore(scores))
  {
    IdOrderIsTotal();
    var leq := ByScore(scores);
    forall a, b ensures leq(a, b) || leq(b, a) {
      assert IdLeq(a, b) || IdLeq(b, a);
    }
    forall a, b, c | leq(a, b) && leq(b, c) ensures leq(a, c) {
      assert IdLeq(a, b) && IdLeq(b, c) ==> IdLeq(a, c);
    }
  }

  /** The ids listed in the order the dictionary happens to hold them. */
  ghost predicate Lists(ids: seq<Id>, scores: map<Id, real>) {
    && (forall k :: k in ids <==> k in scores)
    && forall i, j :: 0 <= i < j < |ids| ==> ids[i] != ids[j]
  }

  /** Ascending by (score, id). */
  function StableOrder(ids: seq<Id>, scores: map<Id, real>): seq<Id> {
    SortBy(ids, ByScore(scores))
  }

  /** The order does not depend on how the dictionary lists its ids. */
  lemma OrderIndependent(ids: seq<Id>, other: seq<Id>, scores: map<Id, real>)
    requires Lists(ids, scores) && Lists(other, scores)
    ensures StableOrder(ids, scores) == StableOrder(other, scores)
  {
    var leq := ByScore(scores);
    ScoreOrderIsTotal(scores);
    SameContents(ids, other);
    SortIsSorted(ids, leq);
    SortIsSorted(other, leq);
    SortContents(ids, leq);
    SortContents(other, leq);
    SortedUnique(StableOrder(ids, scores), StableOrder(other, scores), leq);
  }

  lemma OrderFacts(ids: seq<Id>, scores: map<Id, real>)
    requires Lists(ids, scores)
    ensures Lists(StableOrder(ids, scores), scores) && |StableOrder(ids, scores)| == |ids|
    ensures Sorted(StableOrder(ids, scores), ByScore(scores))
  {
    var leq := ByScore(scores);
    ScoreOrderIsTotal(scores);
    SortIsSorted(ids, leq);
    SortContents(ids, leq);
    DistinctFromMultiset(ids, StableOrder(ids, scores));
  }

  // ---------------------------------------------------------------- bin arithmetic

  /** The fractile of position i among n, for k fractiles. */
  function BinOf(i: nat, k: nat, n: nat): nat
    requires n > 0
  {
    i * k / n
  }

  /** The first position of bin j: the least i with i * k >= j * n. */
  function BinStart(j: nat, k: nat, n: nat): nat
    requires k > 0
  {
    (j * n + k - 1) / k
  }

  lemma FloorAtLeast(a: nat, n: nat, j: nat)
    requires n > 0
    ensures a / n >= j <==> a >= j * n
  {
    QuotientBounds(a, n);
    if a / n >= j {
      Scaled(j, a / n, n);
    } else {
      Scaled(a / n + 1, j, n);
    }
  }

  lemma CeilAtLeast(i: nat, k: nat, a: nat)
    requires k > 0
    ensures i * k >= a <==> i >= (a + k - 1) / k
  {
    var s := (a + k - 1) / k;
    QuotientBounds(a + k - 1, k);
    if i >= s {
      Scaled(s, i, k);
    } else {
      Scaled(i + 1, s, k);
    }
  }

  lemma QuotientBounds(a: nat, k: nat)
    requires k > 0
    ensures a / k * k <= a < a / k * k + k
  {
  }

  lemma Scaled(x: nat, y: nat, k: nat)
    requires x <= y
    ensures x * k <= y * k
  {
  }

  /** Bin j is exactly the positions from its start to the next bin's start. */
  lemma BinIsInterval(i: nat, j: nat, k: nat, n: nat)
    requires k > 0 && n > 0
    ensures BinOf(i, k, n) == j <==> BinStart(j, k, n) <= i < BinStart(j + 1, k, n)
  {
    FloorAtLeast(i * k, n, j);
    FloorAtLeast(i * k, n, j + 1);
    CeilAtLeast(i, k, j * n);
    CeilAtLeast(i, k, (j + 1) * n);
  }

  lemma BinSize(j: nat, k: nat, n: nat)
    requires 0 < k <= n
    ensures n / k <= BinStart(j + 1, k, n) - BinStart(j, k, n) <= (n + k - 1) / k
    ensures n / k >= 1
  {
    StartsApart(j * n, n, k);
    Next(j, n);
    FloorAtLeast(n, k, 1);
  }

  lemma Next(j: nat, n: nat)
    ensures (j + 1) * n == j * n + n
  {
  }

  /** Rounding up two numbers n apart. */
  lemma StartsApart(a: nat, n: nat, k: nat)
    requires 0 < k <= n
    ensures n / k <= (a + n + k - 1) / k - (a + k - 1) / k <= (n + k - 1) / k
  {
    QuotientBounds(a + k - 1, k);
    QuotientBounds(a + n + k - 1, k);
    var s, s' := (a + k - 1) / k, (a + n + k - 1) / k;
    Difference(s', s, k);
    SizeBounds(s' - s, k, n);
  }

  lemma Difference(x: int, y: int, k: nat)
    ensures (x - y) * k == x * k - y * k
  {
  }

  lemma MulMonotone(x: int, y: int, k: nat)
    requires x <= y
    ensures x * k <= y * k
  {
    assert (y - x) * k >= 0;
  }

  lemma SizeBounds(d: int, k: nat, n: nat)
    requires 0 < k <= n && n - k < d * k < n + k
    ensures n / k <= d <= (n + k - 1) / k
  {
    var q, c := n / k, (n + k - 1) / k;
    FloorAtLeast(n, k, q);
    FloorAtLeast(n + k - 1, k, c + 1);
    assert (q - 1) * k == q * k - k;
    if d < q {
      MulMonotone(d, q - 1, k);
    }
    if d > c {
      MulMonotone(c + 1, d, k);
    }
  }

  // ---------------------------------------------------------------- assignment

  function IndexOf(order: seq<Id>, k: Id): (i: nat)
    requires k in order
    ensures i < |order| && order[i] == k
    decreases |order|
  {
    var last := |order| - 1;
    if order[last] == k then last else IndexOf(order[..last], k)
  }

  /** Equal-count fractile per security: position i of n gets fractile i * k // n. */
  function AssignFractiles(ids: seq<Id>, scores: map<Id, real>, k: int): Result<map<Id, nat>, FractileError>
    requires Lists(ids, scores)
  {
    if k < 2 then Failure(TooFewFractiles)
    else if |ids| < k then Failure(UniverseTooSmall)
    else
      var order := StableOrder(ids, scores);
      OrderFacts(ids, scores);
      Success(map sec | sec in order :: BinOf(IndexOf(order, sec), k, |order|))
  }

  function Bin(bins: map<Id, nat>, j: nat): set<Id> {
    set sec | sec in bins && bins[sec] == j
  }

  lemma {:induction false} DistinctSize(s: seq<Id>)
    requires forall i, j :: 0 <= i < j < |s| ==> s[i] != s[j]
    ensures |set k | k in s| == |s|
    decreases |s|
  {
    if s != [] {
      var n := |s| - 1;
      DistinctSize(s[..n]);
      assert (set k | k in s) == (set k | k in s[..n]) + {s[n]};
    }
  }

  /** A member of a list without repetition is in a slice exactly if its position is. */
  lemma InSlice(order: seq<Id>, lo: nat, hi: nat, i: nat)
    requires lo <= hi <= |order| && i < |order|
    requires forall a, b :: 0 <= a < b < |order| ==> order[a] != order[b]
    ensures order[i] in order[lo..hi] <==> lo <= i < hi
  {
    var part := order[lo..hi];
    if order[i] in part {
      var t :| 0 <= t < |part| && part[t] == order[i];
      assert order[lo + t] == order[i];
    }
    if lo <= i < hi {
      assert part[i - lo] == order[i];
    }
  }

  /** The members of a bin are one stretch of the order. */
  lemma BinMembers(order: seq<Id>, bins: map<Id, nat>, k: nat, j: nat)
    requires 0 < k <= |order| && j < k
    requires forall a, b :: 0 <= a < b < |order| ==> order[a] != order[b]
    requires bins.Keys == set sec | sec in order
    requires forall i :: 0 <= i < |order| ==> bins[order[i]] == BinOf(i, k, |order|)
    ensures |Bin(bins, j)| == BinStart(j + 1, k, |order|) - BinStart(j, k, |order|)
    ensures |order| / k <= |Bin(bins, j)| <= (|order| + k - 1) / k
    ensures Bin(bins, j) != {}
  {
    hide BinOf, BinStart;
    var n := |order|;
    var lo, hi := BinStart(j, k, n), BinStart(j + 1, k, n);
    BinSize(j, k, n);
    BinBelow(j + 1, k, n);
    var part := order[lo..hi];
    DistinctSize(part);
    forall sec ensures sec in Bin(bins, j) <==> sec in part {
      if sec in bins {
        var i :| 0 <= i < n && order[i] == sec;
        BinIsInterval(i, j, k, n);
        InSlice(order, lo, hi, i);
      }
    }
    assert Bin(bins, j) == set sec | sec in part;
  }

  lemma BinBelow(j: nat, k: nat, n: nat)
    requires 0 < k && j <= k
    ensures BinStart(j, k, n) <= n
  {
    CeilAtLeast(n, k, j * n);
    MulMonotone(j, k, n);
  }

  lemma {:induction false} IndexOfDistinct(order: seq<Id>, i: nat)
    requires i < |order| && forall a, b :: 0 <= a < b < |order| ==> order[a] != order[b]
    ensures IndexOf(order, order[i]) == i
  {
  }

  lemma BinMonotone(a: nat, b: nat, k: nat, n: nat)
    requires a <= b && n > 0
    ensures BinOf(a, k, n) <= BinOf(b, k, n)
  {
    assert a * k <= b * k;
    FloorAtLeast(b * k, n, a * k / n);
    FloorAtLeast(a * k, n, a * k / n);
  }

  lemma BinInRange(i: nat, k: nat, n: nat)
    requires i < n
    ensures k > 0 ==> BinOf(i, k, n) < k
  {
    if k > 0 {
      FloorAtLeast(i * k, n, k);
      assert i * k < k * n by { assert (n - i) * k > 0; }
    }
  }

  /** The assignment is total, monotone in (score, id), and splits the universe into k non-empty bins whose sizes
      differ by at most one. It does not depend on how the dictionary lists its ids. */
  lemma FractilesEqualCount(ids: seq<Id>, scores: map<Id, real>, k: int)
    requires Lists(ids, scores)
    ensures AssignFractiles(ids, scores, k).Success? <==> 2 <= k <= |ids|
    ensures AssignFractiles(ids, scores, k).Success? ==>
              var bins := AssignFractiles(ids, scores, k).value;
              && bins.Keys == scores.Keys
              && (forall sec :: sec in bins ==> bins[sec] < k)
              && (forall a, b :: a in bins && b in bins && ScoreLeq(scores, a, b) ==> bins[a] <= bins[b])
              && (forall j :: 0 <= j < k ==>
                    Bin(bins, j) != {} && |ids| / k <= |Bin(bins, j)| <= (|ids| + k - 1) / k)
    ensures forall other :: Lists(other, scores) ==> AssignFractiles(other, scores, k) == AssignFractiles(ids, scores, k)
  {
    hide AssignFractiles, Bin, ScoreLeq;
    AssignedWhen(ids, scores, k);
    if 2 <= k <= |ids| {
      BinsBalanced(ids, scores, k);
    }
    forall other | Lists(other, scores)
      ensures AssignFractiles(other, scores, k) == AssignFractiles(ids, scores, k)
    {
      ListingIrrelevant(ids, other, scores, k);
    }
  }

  lemma AssignedWhen(ids: seq<Id>, scores: map<Id, real>, k: int)
    requires Lists(ids, scores)
    ensures AssignFractiles(ids, scores, k).Success? <==> 2 <= k <= |ids|
  {
  }

  lemma ListingIrrelevant(ids: seq<Id>, other: seq<Id>, scores: map<Id, real>, k: int)
    requires Lists(ids, scores) && Lists(other, scores)
    ensures AssignFractiles(other, scores, k) == AssignFractiles(ids, scores, k)
  {
    hide BinOf, StableOrder, Sorted;
    OrderIndependent(ids, other, scores);
    OrderFacts(ids, scores);
    OrderFacts(other, scores);
  }

  lemma BinsBalanced(ids: seq<Id>, scores: map<Id, real>, k: int)
    requires Lists(ids, scores) && 2 <= k <= |ids|
    ensures AssignFractiles(ids, scores, k).Success?
    ensures var bins := AssignFractiles(ids, scores, k).value;
            && bins.Keys == scores.Keys
            && (forall sec :: sec in bins ==> bins[sec] < k)
            && (forall a, b :: a in bins && b in bins && ScoreLeq(scores, a, b) ==> bins[a] <= bins[b])
            && (forall j :: 0 <= j < k ==>
                  Bin(bins, j) != {} && |ids| / k <= |Bin(bins, j)| <= (|ids| + k - 1) / k)
            && (forall j :: 0 <= j < k ==> |Bin(bins, j)| == BinStart(j + 1, k, |ids|) - BinStart(j, k, |ids|))
  {
    hide BinOf, BinStart, StableOrder, ScoreLeq, IdLeq, Sorted, Bin;
    OrderFacts(ids, scores);
    var order := StableOrder(ids, scores);
    var bins := AssignFractiles(ids, scores, k).value;
    forall i | 0 <= i < |order| ensures bins[order[i]] == BinOf(i, k, |order|) {
      IndexOfDistinct(order, i);
    }
    forall sec | sec in bins ensures bins[sec] < k {
      BinInRange(IndexOf(order, sec), k, |order|);
    }
    forall a, b | a in bins && b in bins && ScoreLeq(scores, a, b) ensures bins[a] <= bins[b] {
      AscendingIndex(order, scores, a, b);
      BinMonotone(IndexOf(order, a), IndexOf(order, b), k, |order|);
    }
    forall j | 0 <= j < k
      ensures Bin(bins, j) != {} && |ids| / k <= |Bin(bins, j)| <= (|ids| + k - 1) / k
      ensures |Bin(bins, j)| == BinStart(j + 1, k, |ids|) - BinStart(j, k, |ids|)
    {
      BinMembers(order, bins, k, j);
    }
  }

  lemma AscendingIndex(order: seq<Id>, scores: map<Id, real>, a: Id, b: Id)
    requires Lists(order, scores) && Sorted(order, ByScore(scores))
    requires a in order && b in order && ScoreLeq(scores, a, b)
    ensures IndexOf(order, a) <= IndexOf(order, b)
  {
    ScoreOrderIsTotal(scores);
    var i, j := IndexOf(order, a), IndexOf(order, b);
    if j < i {
      assert false;
    }
  }

  /** The top and the bottom fractile, each ascending by id. */
  function TopBottom(ids: seq<Id>, scores: map<Id, real>, k: int): Result<(seq<Id>, seq<Id>), FractileError>
    requires Lists(ids, scores)
  {
    match AssignFractiles(ids, scores, k)
    case Failure(e) => Failure(e)
    case Success(bins) =>
      Success((SortedIds(Bin(bins, k - 1)), SortedIds(Bin(bins, 0))))
  }

  /** Both legs are non-empty and disjoint, and every long name outranks every short one. */
  lemma LegsSeparate(ids: seq<Id>, scores: map<Id, real>, k: int)
    requires Lists(ids, scores)
    requires TopBottom(ids, scores, k).Success?
    ensures var (top, bottom) := TopBottom(ids, scores, k).value;
            && top != [] && bottom != []
            && (forall a :: a in top ==> a in scores && a !in bottom)
            && (forall b :: b in bottom ==> b in scores)
            && forall a, b :: a in top && b in bottom ==> ScoreLeq(scores, b, a)
  {
    hide AssignFractiles, ScoreLeq;
    FractilesEqualCount(ids, scores, k);
    var bins := AssignFractiles(ids, scores, k).value;
    var (top, bottom) := TopBottom(ids, scores, k).value;
    assert Bin(bins, k - 1) != {} && Bin(bins, 0) != {};
    forall a, b | a in top && b in bottom ensures ScoreLeq(scores, b, a) {
      EitherLeq(scores, a, b);
    }
  }

  lemma EitherLeq(scores: map<Id, real>, a: Id, b: Id)
    ensures ScoreLeq(scores, a, b) || ScoreLeq(scores, b, a)
  {
    IdLessTotal(a, b);
  }

  // ---------------------------------------------------------------- the legs are the extremes

  /** a has the higher score, or an equal score and the later id. */
  predicate Outranks(scores: map<Id, real>, a: Id, b: Id) {
    At(scores, a) > At(scores, b) || (At(scores, a) == At(scores, b) && IdLess(b, a))
  }

  /** The leg holds that many names, each of which outranks every name left out. */
  predicate IsTop(leg: set<Id>, scores: map<Id, real>, size: nat) {
    && leg <= scores.Keys && |leg| == size
    && forall a, b :: a in leg && b in scores && b !in leg ==> Outranks(scores, a, b)
  }

  /** The leg holds that many names, each of which every name left out outranks. */
  predicate IsBottom(leg: set<Id>, scores: map<Id, real>, size: nat) {
    && leg <= scores.Keys && |leg| == size
    && forall a, b :: a in leg && b in scores && b !in leg ==> Outranks(scores, b, a)
  }

  /** Of n names in k fractiles, the top leg takes n / k and the bottom leg as many, rounded up. */
  predicate AreExtremes(longs: set<Id>, shorts: set<Id>, scores: map<Id, real>, k: int)
    requires k > 0
  {
    IsTop(longs, scores, |scores.Keys| / k) && IsBottom(shorts, scores, (|scores.Keys| + k - 1) / k)
  }

  lemma LastStart(k: nat, n: nat)
    requires k > 0
    ensures BinStart(k, k, n) == n && BinStart(k - 1, k, n) == n - n / k
  {
    var q := n / k;
    QuotientBounds(n, k);
    Difference(k, 1, n);
    Difference(n, q, k);
    QuotientBelow(n, k);
    Exchanged(n, k);
    Starts(n, k, k * n);
    Starts(n - q, k, (k - 1) * n);
  }

  lemma QuotientBelow(n: nat, k: nat)
    requires k > 0
    ensures n / k <= n
  {
    FloorAtLeast(n, k, n + 1);
    MulMonotone(1, k, n + 1);
  }

  lemma Exchanged(x: nat, y: nat)
    ensures x * y == y * x
  {
  }

  /** The quotient rounded up is the one number whose multiple covers a and no more. */
  lemma Starts(s: nat, k: nat, a: nat)
    requires k > 0 && a <= s * k < a + k
    ensures (a + k - 1) / k == s
  {
    CeilAtLeast(s, k, a);
    if s > 0 {
      CeilAtLeast(s - 1, k, a);
      Difference(s, 1, k);
    }
  }

  lemma FirstStart(k: nat, n: nat)
    requires k > 0
    ensures BinStart(0, k, n) == 0 && BinStart(1, k, n) == (n + k - 1) / k
  {
    Starts(0, k, 0);
  }

  /** The legs are exactly the best and the worst names, in ascending order of id. */
  lemma LegsAreExtremes(ids: seq<Id>, scores: map<Id, real>, k: int)
    requires Lists(ids, scores) && TopBottom(ids, scores, k).Success?
    ensures var (top, bottom) := TopBottom(ids, scores, k).value;
            && AreExtremes((set sec | sec in top), (set sec | sec in bottom), scores, k)
            && (forall i, j :: 0 <= i < j < |top| ==> IdLess(top[i], top[j]))
            && (forall i, j :: 0 <= i < j < |bottom| ==> IdLess(bottom[i], bottom[j]))
  {
    hide AssignFractiles, IdLess, IdLeq, Bin, AreExtremes, Sorted;
    AssignedWhen(ids, scores, k);
    ExtremeBins(ids, scores, k);
    var bins := AssignFractiles(ids, scores, k).value;
    var (top, bottom) := TopBottom(ids, scores, k).value;
    assert (set sec | sec in top) == Bin(bins, k - 1) && (set sec | sec in bottom) == Bin(bins, 0);
    SortedIdsAscend(Bin(bins, k - 1));
    SortedIdsAscend(Bin(bins, 0));
  }

  lemma ExtremeBins(ids: seq<Id>, scores: map<Id, real>, k: int)
    requires Lists(ids, scores) && 2 <= k <= |ids|
    ensures AssignFractiles(ids, scores, k).Success?
    ensures var bins := AssignFractiles(ids, scores, k).value; AreExtremes(Bin(bins, k - 1), Bin(bins, 0), scores, k)
  {
    hide AssignFractiles, ScoreLeq, BinStart, Bin, IsTop, IsBottom;
    BinsBalanced(ids, scores, k);
    var bins := AssignFractiles(ids, scores, k).value;
    AsManyNames(ids, scores);
    LastStart(k, |ids|);
    FirstStart(k, |ids|);
    TopBin(scores, bins, k);
    BottomBin(scores, bins);
  }

  lemma AsManyNames(ids: seq<Id>, scores: map<Id, real>)
    requires Lists(ids, scores)
    ensures |scores.Keys| == |ids|
  {
    DistinctSize(ids);
    assert (set sec | sec in ids) == scores.Keys;
  }

  ghost predicate BinsFollowScores(scores: map<Id, real>, bins: map<Id, nat>) {
    bins.Keys == scores.Keys && forall x, y :: x in bins && y in bins && ScoreLeq(scores, x, y) ==> bins[x] <= bins[y]
  }

  lemma TopBin(scores: map<Id, real>, bins: map<Id, nat>, k: int)
    requires BinsFollowScores(scores, bins) && k > 0 && forall sec :: sec in bins ==> bins[sec] < k
    ensures IsTop(Bin(bins, k - 1), scores, |Bin(bins, k - 1)|)
  {
    hide ScoreLeq, Outranks;
    forall a, b | a in Bin(bins, k - 1) && b in scores && b !in Bin(bins, k - 1) ensures Outranks(scores, a, b) {
      HigherBin(scores, bins, a, b);
    }
  }

  lemma BottomBin(scores: map<Id, real>, bins: map<Id, nat>)
    requires BinsFollowScores(scores, bins)
    ensures IsBottom(Bin(bins, 0), scores, |Bin(bins, 0)|)
  {
    hide ScoreLeq, Outranks;
    forall a, b | a in Bin(bins, 0) && b in scores && b !in Bin(bins, 0) ensures Outranks(scores, b, a) {
      HigherBin(scores, bins, b, a);
    }
  }

  /** A name in a higher bin outranks one in a lower. */
  lemma HigherBin(scores: map<Id, real>, bins: map<Id, nat>, a: Id, b: Id)
    requires a in bins && b in bins && bins[a] > bins[b] && BinsFollowScores(scores, bins)
    ensures Outranks(scores, a, b)
  {
    assert !ScoreLeq(scores, a, b);
    IdLessTotal(a, b);
  }

  /** Being the best, or the worst, so many names determines a leg. */
  lemma ExtremesUnique(a: set<Id>, b: set<Id>, scores: map<Id, real>, size: nat)
    ensures IsTop(a, scores, size) && IsTop(b, scores, size) ==> a == b
    ensures IsBottom(a, scores, size) && IsBottom(b, scores, size) ==> a == b
  {
    if |a| == |b| && a != b {
      var x, y := Apart(a, b);
      NotBoth(scores, x, y);
    }
  }

  lemma Apart(a: set<Id>, b: set<Id>) returns (x: Id, y: Id)
    requires |a| == |b| && a != b
    ensures x in a && x !in b && y in b && y !in a
  {
    if a - b == {} {
      Subset(a, b);
    }
    if b - a == {} {
      Subset(b, a);
    }
    x :| x in a - b;
    y :| y in b - a;
  }

  lemma Subset(a: set<Id>, b: set<Id>)
    requires a - b == {} && |a| == |b|
    ensures a == b
  {
    assert a <= b;
    assert b == a + (b - a);
  }

  lemma NotBoth(scores: map<Id, real>, a: Id, b: Id)
    ensures !(Outranks(scores, a, b) && Outranks(scores, b, a))
  {
    IdLessTotal(a, b);
  }
}
