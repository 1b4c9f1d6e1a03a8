/** Exactly when a turnover limit leaves room for a book, in either gross mode: the least trading that reaches the targets. */
module Level3Turnover {
  import opened Sums
  import opened Wrappers
  import opened Level3
  import opened Level3Feasibility
  import opened Level3Caps
  import opened Level3Beta
  import opened Dictionaries

  // ---------------------------------------------------------------- trading through a book in between

  /** At every name b lies between a and w. */
  predicate OnTheWay(a: Vector, b: Vector, w: Vector) {
    |a| == |b| == |w| && forall i :: 0 <= i < |w| ==> a[i] <= b[i] <= w[i] || w[i] <= b[i] <= a[i]
  }

  /** Trading through a book on the way costs nothing extra. */
  lemma TradeThrough(a: Vector, b: Vector, w: Vector)
    requires OnTheWay(a, b, w)
    ensures Gross(Minus(w, a)) == Gross(Minus(b, a)) + Gross(Minus(w, b))
  {
    SumOfSums(AbsAll(Minus(b, a)), AbsAll(Minus(w, b)), AbsAll(Minus(w, a)));
  }

  /** Trading through any book costs at least as much as trading directly. */
  lemma Detouring(a: Vector, b: Vector, w: Vector)
    requires |a| == |b| == |w|
    ensures Gross(Minus(w, a)) <= Gross(Minus(b, a)) + Gross(Minus(w, b))
  {
    var both := seq(|w|, i requires 0 <= i < |w| => AbsAll(Minus(b, a))[i] + AbsAll(Minus(w, b))[i]);
    SumOfSums(AbsAll(Minus(b, a)), AbsAll(Minus(w, b)), both);
    SumMonotone(AbsAll(Minus(w, a)), both);
  }

  /** Closing one position takes its size off gross. */
  lemma CloseOne(s: Vector, m: nat)
    requires m < |s|
    ensures var t := s[m := 0.0];
            && Sum(t) == Sum(s) - s[m] && Gross(t) == Gross(s) - Abs(s[m]) && Gross(Minus(t, s)) == Abs(s[m])
  {
    var t, held := s[m := 0.0], OneHeld(|s|, m, s[m]);
    hide Sum;
    OneHeldFacts(s, m, s[m]);
    OneHeldFacts(s, m, Abs(s[m]));
    SumOfDifferences(s, held, t);
    SumOfDifferences(AbsAll(s), OneHeld(|s|, m, Abs(s[m])), AbsAll(t));
    assert AbsAll(Minus(t, s)) == OneHeld(|s|, m, Abs(s[m]));
  }

  // ---------------------------------------------------------------- moving the two sides to given totals

  /** A non-negative side brought to a given total: scaled down, or with the excess added to name i. */
  lemma SideTo(side: Vector, total: real, i: nat) returns (u: Vector)
    requires total >= 0.0 && (total > Sum(side) ==> i < |side|)
    requires forall m :: 0 <= m < |side| ==> side[m] >= 0.0
    ensures |u| == |side| && Sum(u) == total && Gross(Minus(u, side)) == Abs(total - Sum(side))
    ensures forall m :: 0 <= m < |side| ==> u[m] >= 0.0 && (u[m] > 0.0 && side[m] == 0.0 ==> m == i && total > Sum(side))
  {
    hide Sum, Times, Gross;
    if total <= Sum(side) {
      var zero := seq(|side|, _ => 0.0);
      SumConstant(zero, 0.0);
      var t := Fraction(total, Sum(side));
      u := Blend(zero, side, t);
      BlendSum(zero, side, t);
      forall m | 0 <= m < |side| ensures 0.0 <= u[m] <= side[m] {
        PartOf(t, side[m]);
        assert side[m] - zero[m] == side[m];
      }
    } else {
      var more := OneHeld(|side|, i, total - Sum(side));
      OneHeldFacts(side, i, total - Sum(side));
      u := seq(|side|, m requires 0 <= m < |side| => side[m] + more[m]);
      SumOfSums(side, more, u);
    }
    OneWay(Minus(u, side));
    SumOfDifferences(u, side, Minus(u, side));
  }

  /** A book with given side totals, reached from s at the cost of the two differences. */
  lemma MoveSides(s: Vector, long: real, short: real, i: nat, j: nat) returns (w: Vector)
    requires long >= 0.0 && short >= 0.0
    requires long > Sum(Longs(s)) ==> i < |s| && (s[i] >= 0.0 || short == 0.0)
    requires short > Sum(Shorts(s)) ==> j < |s| && (s[j] <= 0.0 || long == 0.0)
    requires long > Sum(Longs(s)) && short > Sum(Shorts(s)) ==> i != j
    ensures |w| == |s| && Sum(w) == long - short && Gross(w) == long + short
    ensures Gross(Minus(w, s)) == Abs(long - Sum(Longs(s))) + Abs(short - Sum(Shorts(s)))
    ensures forall m :: 0 <= m < |s| && w[m] < 0.0 ==> s[m] < 0.0 || (m == j && short > Sum(Shorts(s)))
  {
    hide Sum, Gross;
    var u := SideTo(Longs(s), long, i);
    var v := SideTo(Shorts(s), short, j);
    if long == 0.0 {
      AllZero(u);
    }
    if short == 0.0 {
      AllZero(v);
    }
    w := Minus(u, v);
    SidesMakeBook(u, v);
    forall m | 0 <= m < |s|
      ensures AbsAll(Minus(w, s))[m] == AbsAll(Minus(u, Longs(s)))[m] + AbsAll(Minus(v, Shorts(s)))[m]
    {
    }
    GrossAdds(Minus(u, Longs(s)), Minus(v, Shorts(s)), Minus(w, s));
  }

  lemma GrossAdds(a: Vector, b: Vector, c: Vector)
    requires |a| == |b| == |c| && forall i :: 0 <= i < |c| ==> AbsAll(c)[i] == AbsAll(a)[i] + AbsAll(b)[i]
    ensures Gross(c) == Gross(a) + Gross(b)
  {
    SumOfSums(AbsAll(a), AbsAll(b), AbsAll(c));
  }

  // ---------------------------------------------------------------- the least trading

  /** Only gross, net, borrow and turnover constraints are configured. */
  predicate IsTurnoverLimited(p: Problem, c: Constraints) {
    && p.tradeCaps.None? && c.turnoverLimit.Some?
    && c.maxPosition.None? && c.betaLimit.None? && c.sectorLimit.None? && c.countryLimit.None? && c.volatility.None?
  }

  /** The previous book without the short positions that may no longer be held. */
  function Recalled(p: Problem): (s: Vector)
    requires Aligned(p)
    ensures |s| == p.n
  {
    seq(p.n, i requires 0 <= i < p.n => if p.shortable[i] then p.wPrev[i] else Max(p.wPrev[i], 0.0))
  }

  /** Some name can take more on the long side without closing a short position first. */
  predicate LongOpen(s: Vector) {
    exists i :: 0 <= i < |s| && s[i] >= 0.0
  }

  predicate ShortOpen(p: Problem, s: Vector)
    requires |p.shortable| == |s|
  {
    exists i :: 0 <= i < |s| && p.shortable[i] && s[i] <= 0.0
  }

  /**
   * What is traded from on the way to the targets. With gross as an equality, a side that needs a
   * name and has none takes over the smallest position of the other side.
   */
  function Start(p: Problem, c: Constraints): (s: Vector)
    requires Aligned(p) && p.n > 0
    ensures |s| == p.n
  {
    var s := Recalled(p);
    if c.grossEquality && LongSide(c) > 0.0 && !LongOpen(s) then s[LeastAt(AbsAll(s), Everyone(p.n)) := 0.0]
    else if c.grossEquality && ShortSide(c) > 0.0 && !ShortOpen(p, s) && CountTrue(p.shortable) > 0 then
      s[LeastAt(AbsAll(s), p.shortable) := 0.0]
    else s
  }

  /** The least one-way turnover of any book that meets the other constraints. */
  ghost function LeastOneWay(p: Problem, c: Constraints): real
    requires Aligned(p) && p.n > 0
  {
    0.5 * Gross(Minus(Start(p, c), p.wPrev)) + MinimumOneWay(p.(wPrev := Start(p, c)), c)
  }

  lemma FeasibleMeansTurnover(p: Problem, c: Constraints, w: Vector)
    requires ValidProblem(p) && IsTurnoverLimited(p, c)
    ensures Feasible(p, c, w) <==>
            && |w| == p.n && Sum(w) == c.netTarget
            && Gross(w) <= c.grossTarget && (c.grossEquality ==> Gross(w) >= c.grossTarget)
            && OneWayTurnover(p, w) <= c.turnoverLimit.value
            && forall i :: 0 <= i < p.n && !p.shortable[i] ==> w[i] >= 0.0
  {
    hide Sum, Gross, Dot, OneWayTurnover;
  }

  // ---------------------------------------------------------------- no book trades less

  /** What any book of the targets trades from any book. */
  ghost function Distance(s: Vector, c: Constraints): real {
    Max(if c.grossEquality then Abs(c.grossTarget - Gross(s)) else Max(0.0, Gross(s) - c.grossTarget), Abs(c.netTarget - Sum(s)))
  }

  lemma AtLeastDistance(s: Vector, w: Vector, c: Constraints)
    requires |s| == |w| && Sum(w) == c.netTarget
    requires Gross(w) <= c.grossTarget && (c.grossEquality ==> Gross(w) >= c.grossTarget)
    ensures Gross(Minus(w, s)) >= Distance(s, c)
  {
    hide Sum, Gross;
    TradeDistance(w, s);
  }

  lemma LeastMeans(p: Problem, c: Constraints, w: Vector)
    requires ValidProblem(p) && |w| == p.n
    ensures LeastOneWay(p, c) == 0.5 * (ExitsTwoWay(p) + Gross(Minus(Start(p, c), p.wPrev)) + Distance(Start(p, c), c))
    ensures OneWayTurnover(p, w) == 0.5 * (ExitsTwoWay(p) + Gross(Minus(w, p.wPrev)))
  {
    hide Sum, Gross, Start, MapSum;
  }

  lemma RecalledOnTheWay(p: Problem, w: Vector)
    requires Aligned(p) && |w| == p.n && forall i :: 0 <= i < p.n && !p.shortable[i] ==> w[i] >= 0.0
    ensures OnTheWay(p.wPrev, Recalled(p), w)
  {
  }

  /** Taking over a position costs its size, and more of it than is gained elsewhere. */
  lemma TakeOver(s: Vector, m: nat, least: nat, w: Vector, c: Constraints)
    requires |s| == |w| && m < |s| && least < |s| && Abs(s[least]) <= Abs(s[m])
    requires (s[m] < 0.0 < w[m] && s[least] < 0.0) || (w[m] < 0.0 < s[m] && s[least] > 0.0)
    requires c.grossEquality && Sum(w) == c.netTarget && Gross(w) == c.grossTarget
    ensures Gross(Minus(w, s)) >= Abs(s[least]) + Distance(s[least := 0.0], c)
  {
    hide Sum, Gross;
    CloseOne(s, m);
    CloseOne(s, least);
    TradeThrough(s, s[m := 0.0], w);
    AtLeastDistance(s[m := 0.0], w, c);
  }

  lemma SomeLong(w: Vector) returns (m: nat)
    requires Sum(w) + Gross(w) > 0.0
    ensures m < |w| && w[m] > 0.0
  {
    hide Sum, Gross;
    Sides(w);
    if forall i :: 0 <= i < |w| ==> w[i] <= 0.0 {
      SumConstant(Longs(w), 0.0);
      assert false;
    }
    m :| 0 <= m < |w| && w[m] > 0.0;
  }

  lemma SomeShort(w: Vector) returns (m: nat)
    requires Gross(w) - Sum(w) > 0.0
    ensures m < |w| && w[m] < 0.0
  {
    hide Sum, Gross;
    Sides(w);
    if forall i :: 0 <= i < |w| ==> w[i] >= 0.0 {
      SumConstant(Shorts(w), 0.0);
      assert false;
    }
    m :| 0 <= m < |w| && w[m] < 0.0;
  }

  lemma NoBookTradesLess(p: Problem, c: Constraints, w: Vector)
    requires ValidProblem(p) && ValidConstraints(c) && IsTurnoverLimited(p, c) && Feasible(p, c, w)
    ensures LeastOneWay(p, c) <= OneWayTurnover(p, w)
  {
    hide Sum, Gross, Feasible, Dot, OneWayTurnover, LeastOneWay, Distance, Recalled, CountTrue;
    FeasibleMeansTurnover(p, c, w);
    LeastMeans(p, c, w);
    var s := Recalled(p);
    RecalledOnTheWay(p, w);
    TradeThrough(p.wPrev, s, w);
    if c.grossEquality && LongSide(c) > 0.0 && !LongOpen(s) {
      var m := SomeLong(w);
      var least := LeastAt(AbsAll(s), Everyone(p.n));
      assert Everyone(p.n)[m] && AbsAll(s)[least] <= AbsAll(s)[m];
      ClosedFurther(p, least);
      TakeOver(s, m, least, w, c);
    } else if c.grossEquality && ShortSide(c) > 0.0 && !ShortOpen(p, s) && CountTrue(p.shortable) > 0 {
      var m := SomeShort(w);
      var least := LeastAt(AbsAll(s), p.shortable);
      assert p.shortable[m] && AbsAll(s)[least] <= AbsAll(s)[m];
      ClosedFurther(p, least);
      TakeOver(s, m, least, w, c);
    } else {
      AtLeastDistance(s, w, c);
    }
  }

  /** Closing one more position than the recalled ones. */
  lemma ClosedFurther(p: Problem, m: nat)
    requires Aligned(p) && m < p.n
    ensures var s := Recalled(p);
            Gross(Minus(s[m := 0.0], p.wPrev)) <= Gross(Minus(s, p.wPrev)) + Abs(s[m])
  {
    hide Gross, Recalled;
    CloseOne(Recalled(p), m);
    Detouring(p.wPrev, Recalled(p), Recalled(p)[m := 0.0]);
  }

  // ---------------------------------------------------------------- and one trades no more

  /** The side totals that are nearest to those of s among the targets' books. */
  lemma SideTotals(s: Vector, c: Constraints) returns (long: real, short: real)
    requires ValidConstraints(c)
    ensures long >= 0.0 && short >= 0.0 && long - short == c.netTarget
    ensures long + short <= c.grossTarget && (c.grossEquality ==> long + short == c.grossTarget)
    ensures Abs(long - Sum(Longs(s))) + Abs(short - Sum(Shorts(s))) == Distance(s, c)
    ensures !c.grossEquality && long > Sum(Longs(s)) ==> short == 0.0
    ensures !c.grossEquality && short > Sum(Shorts(s)) ==> long == 0.0
  {
    hide Sum, Gross;
    Sides(s);
    SideNonNegative(Longs(s));
    SideNonNegative(Shorts(s));
    var l, q, net, gross := Sum(Longs(s)), Sum(Shorts(s)), c.netTarget, c.grossTarget;
    var rise := net - (l - q);
    if c.grossEquality || l + q - gross > Abs(rise) {
      long, short := LongSide(c), ShortSide(c);
    } else if rise >= 0.0 {
      long, short := if rise <= q then l else net, if rise <= q then q - rise else 0.0;
    } else {
      long, short := if -rise <= l then l + rise else 0.0, if -rise <= l then q else -net;
    }
  }

  /** Room for both sides, with no position cap: a name for each. */
  lemma RoomyMeans(p: Problem, c: Constraints)
    requires ValidConstraints(c) && c.maxPosition.None? && |p.shortable| == p.n
    ensures Roomy(p.n, p.shortable, c) <==>
            && (ShortRequirement(c) > 0.0 ==> CountTrue(p.shortable) > 0)
            && (LongRequirement(c) > 0.0 && ShortRequirement(c) > 0.0 ==> p.n >= 2)
            && (LongRequirement(c) > 0.0 ==> p.n >= 1)
  {
    hide CountTrue;
  }

  lemma StartIsOpen(p: Problem, c: Constraints)
    requires Aligned(p) && p.n > 0 && c.grossEquality
    requires ShortSide(c) > 0.0 ==> CountTrue(p.shortable) > 0
    requires LongSide(c) > 0.0 && ShortSide(c) > 0.0 ==> p.n >= 2
    ensures LongSide(c) > 0.0 ==> LongOpen(Start(p, c))
    ensures ShortSide(c) > 0.0 ==> ShortOpen(p, Start(p, c))
  {
    hide LeastAt, CountTrue, Everyone;
    var s := Recalled(p);
    if LongSide(c) > 0.0 && !LongOpen(s) {
      var least := LeastAt(AbsAll(s), Everyone(p.n));
      assert Start(p, c)[least] == 0.0;
      if ShortSide(c) > 0.0 {
        var other := if least == 0 then 1 else 0;
        assert s[other] < 0.0 && p.shortable[other] && Start(p, c)[other] == s[other];
      }
    } else if ShortSide(c) > 0.0 && !ShortOpen(p, s) {
      var least := LeastAt(AbsAll(s), p.shortable);
      assert Start(p, c)[least] == 0.0;
    }
  }

  lemma StartIsShortable(p: Problem, c: Constraints)
    requires Aligned(p) && p.n > 0
    ensures forall i :: 0 <= i < p.n && Start(p, c)[i] < 0.0 ==> p.shortable[i]
  {
    hide LeastAt, CountTrue, Everyone;
  }

  /** A name each for the long and the short side, of an open start. */
  lemma TwoNames(p: Problem, s: Vector, long: real, short: real) returns (i: nat, j: nat)
    requires |s| == |p.shortable| == p.n > 0 && forall m :: 0 <= m < p.n && s[m] < 0.0 ==> p.shortable[m]
    requires (long > 0.0 ==> LongOpen(s)) && (short > 0.0 ==> ShortOpen(p, s)) && (long > 0.0 && short > 0.0 ==> p.n >= 2)
    ensures i < p.n && j < p.n
    ensures long > 0.0 ==> s[i] >= 0.0
    ensures short > 0.0 ==> s[j] <= 0.0 && p.shortable[j]
    ensures long > 0.0 && short > 0.0 ==> i != j
  {
    i, j := 0, 0;
    if long > 0.0 {
      i :| 0 <= i < p.n && s[i] >= 0.0;
    }
    if short > 0.0 {
      j :| 0 <= j < p.n && p.shortable[j] && s[j] <= 0.0;
    }
    if long > 0.0 && short > 0.0 && i == j {
      var m := if i == 0 then 1 else 0;
      if s[m] >= 0.0 {
        i := m;
      } else {
        j := m;
      }
    }
  }

  /** The names that take what the sides of the start lack. */
  lemma PickNames(p: Problem, c: Constraints, long: real, short: real) returns (i: nat, j: nat)
    requires ValidConstraints(c) && IsTurnoverLimited(p, c) && Aligned(p) && p.n > 0 && Roomy(p.n, p.shortable, c)
    requires long >= 0.0 && short >= 0.0 && long - short == c.netTarget
    requires c.grossEquality ==> long + short == c.grossTarget
    requires !c.grossEquality && long > Sum(Longs(Start(p, c))) ==> short == 0.0
    requires !c.grossEquality && short > Sum(Shorts(Start(p, c))) ==> long == 0.0
    ensures i < p.n && j < p.n
    ensures long > Sum(Longs(Start(p, c))) ==> Start(p, c)[i] >= 0.0 || short == 0.0
    ensures short > Sum(Shorts(Start(p, c))) ==> (Start(p, c)[j] <= 0.0 || long == 0.0) && p.shortable[j]
    ensures long > Sum(Longs(Start(p, c))) && short > Sum(Shorts(Start(p, c))) ==> i != j
  {
    hide Sum, Start, CountTrue, Roomy;
    RoomyMeans(p, c);
    var s := Start(p, c);
    SideNonNegative(Longs(s));
    SideNonNegative(Shorts(s));
    if c.grossEquality {
      StartIsOpen(p, c);
      StartIsShortable(p, c);
      i, j := TwoNames(p, s, long, short);
    } else {
      i, j := 0, 0;
      if short > Sum(Shorts(s)) {
        j := LeastAt(s, p.shortable);
      }
    }
  }

  lemma SomeBookTradesLeast(p: Problem, c: Constraints) returns (w: Vector)
    requires ValidProblem(p) && ValidConstraints(c) && IsTurnoverLimited(p, c) && Roomy(p.n, p.shortable, c)
    ensures |w| == p.n && OneWayTurnover(p, w) <= LeastOneWay(p, c)
    ensures Feasible(p, c, w) <==> OneWayTurnover(p, w) <= c.turnoverLimit.value
  {
    hide Sum, Gross, Start, Feasible, Dot, OneWayTurnover, LeastOneWay, Distance, Roomy, CountTrue;
    var s := Start(p, c);
    var long, short := SideTotals(s, c);
    var i, j := PickNames(p, c, long, short);
    w := MoveSides(s, long, short, i, j);
    StartIsShortable(p, c);
    FeasibleMeansTurnover(p, c, w);
    LeastMeans(p, c, w);
    Detouring(p.wPrev, s, w);
  }

  // ---------------------------------------------------------------- the exact conditions

  /** In either gross mode, a turnover limit admits a book exactly when both sides find names and the least trading is allowed. */
  lemma TurnoverFeasibleIff(p: Problem, c: Constraints)
    requires ValidProblem(p) && ValidConstraints(c) && IsTurnoverLimited(p, c)
    ensures (exists w :: Feasible(p, c, w)) <==> Roomy(p.n, p.shortable, c) && LeastOneWay(p, c) <= c.turnoverLimit.value
  {
    hide Feasible, Roomy, LeastOneWay, OneWayTurnover;
    if w :| Feasible(p, c, w) {
      NoBookTradesLess(p, c, w);
      FeasibleMeansTurnover(p, c, w);
      WithoutTurnover(p, c, w);
    }
    if Roomy(p.n, p.shortable, c) && LeastOneWay(p, c) <= c.turnoverLimit.value {
      var w := SomeBookTradesLeast(p, c);
    }
  }

  lemma WithoutTurnover(p: Problem, c: Constraints, w: Vector)
    requires ValidProblem(p) && ValidConstraints(c) && IsTurnoverLimited(p, c) && Feasible(p, c, w)
    ensures Roomy(p.n, p.shortable, c)
  {
    hide Sum, Gross, Feasible, Dot, OneWayTurnover, CountTrue, Roomy;
    FeasibleMeansTurnover(p, c, w);
    RoomyMeans(p, c);
    SideNonNegative(AbsAll(w));
    if ShortRequirement(c) > 0.0 {
      GrossAtLeastNet(w);
      var m := SomeShort(w);
      NoneTrueBelow(p.shortable);
      if LongRequirement(c) > 0.0 {
        var k := SomeLong(w);
      }
    }
  }

  /** Where no short position is recalled and both sides have names, the minimum the check computes is the least trading. */
  lemma MinimumIsAttained(p: Problem, c: Constraints)
    requires ValidProblem(p) && IsTurnoverLimited(p, c)
    requires forall i :: 0 <= i < p.n && !p.shortable[i] ==> p.wPrev[i] >= 0.0
    requires c.grossEquality ==> (LongSide(c) > 0.0 ==> LongOpen(p.wPrev)) && (ShortSide(c) > 0.0 ==> ShortOpen(p, p.wPrev))
    ensures LeastOneWay(p, c) == MinimumOneWay(p, c)
  {
    hide MinimumOneWay, CountTrue;
    assert Recalled(p) == p.wPrev;
    assert p.(wPrev := p.wPrev) == p;
    Unmoved(p.wPrev);
  }

  lemma Unmoved(s: Vector)
    ensures Gross(Minus(s, s)) == 0.0
  {
    SumConstant(AbsAll(Minus(s, s)), 0.0);
  }

  /** When the checks are silent on an infeasible problem: the minimum they compute is allowed, and the least trading is not. */
  lemma MissedUnderTurnoverIff(p: Problem, c: Constraints)
    requires ValidProblem(p) && ValidConstraints(c) && IsTurnoverLimited(p, c)
    ensures (forall k :: !Detected(p, c, k)) && !(exists w :: Feasible(p, c, w))
       <==> (ShortRequirement(c) > c.tolerance ==> CountTrue(p.shortable) > 0)
            && MinimumOneWay(p, c) - c.tolerance <= c.turnoverLimit.value
            && !(Roomy(p.n, p.shortable, c) && LeastOneWay(p, c) <= c.turnoverLimit.value)
  {
    hide Feasible, Times, CountTrue, LongRequirement, ShortRequirement, Roomy, LeastOneWay, MinimumOneWay, ValidProblem;
    TurnoverFeasibleIff(p, c);
    if forall k :: !Detected(p, c, k) {
      assert !Detected(p, c, NoShortableName) && !Detected(p, c, TurnoverTooTight);
    }
  }

  lemma NoExits(p: Problem)
    ensures p.exits == map[] ==> ExitsTwoWay(p) == 0.0
  {
    hide MapSum;
    var sizes := map k | k in p.exits :: Abs(p.exits[k]);
    assert sizes.Keys == p.exits.Keys;
    if p.exits == map[] {
      assert sizes == map[];
      EmptySum();
    }
  }

  /** A book of two long positions, and a target with a short side of 0.5: the check's minimum is 0.5, and 1 must be traded. */
  lemma ShortSideTakesOver(w: Vector)
    ensures var p := PlainProblem(2, [true, true]).(wPrev := [3.0, 1.0]);
            var c := PlainConstraints(4.0, true, 3.0, None, 0.000001).(turnoverLimit := Some(0.75));
            && ValidProblem(p) && ValidConstraints(c)
            && (forall k :: !Detected(p, c, k))
            && !Feasible(p, c, w)
  {
    var p := PlainProblem(2, [true, true]).(wPrev := [3.0, 1.0]);
    var c := PlainConstraints(4.0, true, 3.0, None, 0.000001).(turnoverLimit := Some(0.75));
    NoneTrueBelow(p.shortable);
    assert p.shortable[0];
    NoExits(p);
    SumTwo(p.wPrev);
    SumTwo(AbsAll(p.wPrev));
    if |w| == 2 {
      SumTwo(w);
      SumTwo(AbsAll(w));
      SumTwo(AbsAll(Minus(w, p.wPrev)));
    }
  }
}
