/** Exactly when position, borrow and participation limits leave room for a book whose gross is an upper bound. */
module Level3Caps {
  import opened Sums
  import opened Wrappers
  import opened Level3
  import opened Level3Feasibility

  // ---------------------------------------------------------------- what each name may hold

  /** Gross is an upper bound, and only position, borrow and participation limits are configured besides. */
  predicate IsCapped(c: Constraints) {
    && !c.grossEquality && c.betaLimit.None? && c.sectorLimit.None? && c.countryLimit.None?
    && c.turnoverLimit.None? && c.volatility.None?
  }

  /** The position cap, or the whole gross without one. */
  function Reachable(c: Constraints): real {
    if c.maxPosition.Some? then Min(c.maxPosition.value, c.grossTarget) else c.grossTarget
  }

  /** The least and the most a name may hold. */
  function Lowest(p: Problem, c: Constraints, i: nat): real
    requires i < |p.shortable| && i < |p.wPrev| && (p.tradeCaps.Some? ==> i < |p.tradeCaps.value|)
  {
    var floor := if p.shortable[i] then -Reachable(c) else 0.0;
    if p.tradeCaps.Some? then Max(floor, p.wPrev[i] - p.tradeCaps.value[i]) else floor
  }

  function Highest(p: Problem, c: Constraints, i: nat): real
    requires i < |p.wPrev| && (p.tradeCaps.Some? ==> i < |p.tradeCaps.value|)
  {
    if p.tradeCaps.Some? then Min(Reachable(c), p.wPrev[i] + p.tradeCaps.value[i]) else Reachable(c)
  }

  /** The point of an interval nearest to zero. */
  function Nearest(low: real, high: real): real {
    if low > 0.0 then low else if high < 0.0 then high else 0.0
  }

  predicate Aligned(p: Problem) {
    |p.wPrev| == p.n && |p.shortable| == p.n && (p.tradeCaps.Some? ==> |p.tradeCaps.value| == p.n)
  }

  function LowBook(p: Problem, c: Constraints): (v: Vector)
    requires Aligned(p)
    ensures |v| == p.n
  {
    seq(p.n, i requires 0 <= i < p.n => Lowest(p, c, i))
  }

  function HighBook(p: Problem, c: Constraints): (v: Vector)
    requires Aligned(p)
    ensures |v| == p.n
  {
    seq(p.n, i requires 0 <= i < p.n => Highest(p, c, i))
  }

  function NearBook(low: Vector, high: Vector): (v: Vector)
    requires |low| == |high|
    ensures |v| == |low|
  {
    seq(|low|, i requires 0 <= i < |low| => Nearest(low[i], high[i]))
  }

  predicate Within(low: Vector, w: Vector, high: Vector) {
    |low| == |w| == |high| && forall i :: 0 <= i < |w| ==> low[i] <= w[i] <= high[i]
  }

  /** Every name has a weight it may hold, the net is between the extremes, and the least gross that reaches it is allowed. */
  predicate HasRoom(low: Vector, high: Vector, net: real, gross: real)
    requires |low| == |high|
  {
    && Within(low, low, high)
    && Sum(low) <= net <= Sum(high)
    && Gross(NearBook(low, high)) + Abs(net - Sum(NearBook(low, high))) <= gross
  }

  // ---------------------------------------------------------------- a book between two others

  /** A book within the bounds is the nearest one plus moves that each add to gross. */
  lemma GrossSplits(low: Vector, w: Vector, high: Vector)
    requires Within(low, w, high)
    ensures Gross(w) == Gross(NearBook(low, high)) + Gross(Minus(w, NearBook(low, high)))
  {
    var near := NearBook(low, high);
    SumOfSums(AbsAll(near), AbsAll(Minus(w, near)), AbsAll(w));
  }

  lemma {:induction false} GrossAtLeastNet(w: Vector)
    ensures Gross(w) >= Abs(Sum(w))
    decreases |w|
  {
    if w != [] {
      var n := |w| - 1;
      GrossAtLeastNet(w[..n]);
      assert AbsAll(w)[..n] == AbsAll(w[..n]);
    }
  }

  lemma RoomNeeded(low: Vector, w: Vector, high: Vector)
    requires Within(low, w, high)
    ensures HasRoom(low, high, Sum(w), Gross(w))
  {
    hide Sum, Gross, NearBook;
    var near := NearBook(low, high);
    SumMonotone(low, w);
    SumMonotone(w, high);
    GrossSplits(low, w, high);
    SumOfDifferences(w, near, Minus(w, near));
    GrossAtLeastNet(Minus(w, near));
  }

  /** The fraction t of the way from one book to another. */
  function Blend(a: Vector, b: Vector, t: real): (v: Vector)
    requires |a| == |b|
    ensures |v| == |a|
  {
    seq(|a|, i requires 0 <= i < |a| => a[i] + Times(t, b[i] - a[i]))
  }

  lemma PartOf(t: real, x: real)
    requires 0.0 <= t <= 1.0
    ensures x >= 0.0 ==> 0.0 <= Times(t, x) <= x
    ensures x <= 0.0 ==> x <= Times(t, x) <= 0.0
  {
    if x >= 0.0 {
      NonNegative(t, x);
      NonNegative(1.0 - t, x);
    } else {
      NonNegative(t, -x);
      NonNegative(1.0 - t, -x);
    }
  }

  lemma BlendWithin(low: Vector, high: Vector, edge: Vector, t: real)
    requires Within(low, low, high) && (edge == low || edge == high) && 0.0 <= t <= 1.0
    ensures Within(low, Blend(NearBook(low, high), edge, t), high)
  {
    hide Times;
    var near := NearBook(low, high);
    forall i | 0 <= i < |low| ensures low[i] <= Blend(near, edge, t)[i] <= high[i] {
      PartOf(t, edge[i] - near[i]);
    }
  }

  lemma BlendSum(a: Vector, b: Vector, t: real)
    requires |a| == |b|
    ensures Sum(Blend(a, b, t)) == Sum(a) + Times(t, Sum(b) - Sum(a))
    ensures Sum(Minus(Blend(a, b, t), a)) == Times(t, Sum(b) - Sum(a))
  {
    hide Sum, Times, Blend;
    var d, w := Minus(b, a), Blend(a, b, t);
    BlendEntries(a, b, t);
    SumOfDifferences(b, a, d);
    SumOfMultiples(a, t, d, w);
    SumOfDifferences(w, a, Minus(w, a));
  }

  lemma BlendEntries(a: Vector, b: Vector, t: real)
    requires |a| == |b|
    ensures forall i :: 0 <= i < |a| ==> Minus(b, a)[i] == b[i] - a[i]
    ensures forall i :: 0 <= i < |a| ==> Blend(a, b, t)[i] == a[i] + Times(t, Minus(b, a)[i])
  {
    hide Times;
    forall i | 0 <= i < |a| ensures Blend(a, b, t)[i] == a[i] + Times(t, Minus(b, a)[i]) {
      assert Minus(b, a)[i] == b[i] - a[i];
    }
  }

  lemma {:induction false} SumOfMultiples(a: Vector, t: real, b: Vector, c: Vector)
    requires |a| == |b| == |c| && forall i :: 0 <= i < |c| ==> c[i] == a[i] + Times(t, b[i])
    ensures Sum(c) == Sum(a) + Times(t, Sum(b))
    decreases |c|
  {
    if c == [] {
      TimesByZero(t);
    } else {
      hide Times;
      var n := |c| - 1;
      SumOfMultiples(a[..n], t, b[..n], c[..n]);
      Distribute(t, Sum(b[..n]), b[n]);
    }
  }

  /** Moves in one direction have their net as gross. */
  lemma OneWay(v: Vector)
    requires (forall i :: 0 <= i < |v| ==> v[i] >= 0.0) || (forall i :: 0 <= i < |v| ==> v[i] <= 0.0)
    ensures Gross(v) == Abs(Sum(v))
  {
    hide Sum;
    if forall i :: 0 <= i < |v| ==> v[i] >= 0.0 {
      SideNonNegative(v);
      assert AbsAll(v) == v;
    } else {
      Opposite(v);
      SideNonNegative(AbsAll(v));
    }
  }

  lemma Opposite(v: Vector)
    requires forall i :: 0 <= i < |v| ==> v[i] <= 0.0
    ensures Sum(AbsAll(v)) == -Sum(v)
  {
    hide Sum;
    var zero := seq(|v|, _ => 0.0);
    SumConstant(zero, 0.0);
    SumOfDifferences(zero, v, AbsAll(v));
  }

  /** Moving the nearest book towards one of the extremes reaches any net in between at the least gross. */
  lemma BlendReaches(low: Vector, high: Vector, edge: Vector, net: real) returns (w: Vector)
    requires Within(low, low, high)
    requires var m := Sum(NearBook(low, high)); (edge == high && m <= net <= Sum(high)) || (edge == low && Sum(low) <= net <= m)
    ensures Within(low, w, high) && Sum(w) == net
    ensures Gross(w) == Gross(NearBook(low, high)) + Abs(net - Sum(NearBook(low, high)))
  {
    hide Sum, Gross, Times;
    var near := NearBook(low, high);
    var t := Fraction(net - Sum(near), Sum(edge) - Sum(near));
    w := Blend(near, edge, t);
    BlendWithin(low, high, edge, t);
    BlendSum(near, edge, t);
    GrossSplits(low, w, high);
    OneDirection(low, high, edge, t);
    OneWay(Minus(w, near));
  }

  lemma OneDirection(low: Vector, high: Vector, edge: Vector, t: real)
    requires Within(low, low, high) && (edge == low || edge == high) && 0.0 <= t <= 1.0
    ensures var near := NearBook(low, high);
            var v := Minus(Blend(near, edge, t), near);
            (forall i :: 0 <= i < |v| ==> v[i] >= 0.0) || (forall i :: 0 <= i < |v| ==> v[i] <= 0.0)
  {
    hide Times;
    var near := NearBook(low, high);
    var v := Minus(Blend(near, edge, t), near);
    forall i | 0 <= i < |v|
      ensures edge == high ==> v[i] >= 0.0
      ensures edge == low ==> v[i] <= 0.0
    {
      PartOf(t, edge[i] - near[i]);
    }
  }

  /** How far x is along the way to y. */
  lemma Fraction(x: real, y: real) returns (t: real)
    requires 0.0 <= x <= y || y <= x <= 0.0
    ensures 0.0 <= t <= 1.0 && Times(t, y) == x
  {
    if y == 0.0 {
      t := 0.0;
      TimesByZero(0.0);
    } else {
      t := x / y;
      QuotientTimes(x, y);
    }
  }

  lemma RoomEnough(low: Vector, high: Vector, net: real, gross: real) returns (w: Vector)
    requires |low| == |high| && HasRoom(low, high, net, gross)
    ensures Within(low, w, high) && Sum(w) == net && Gross(w) <= gross
  {
    hide Sum, Gross;
    w := BlendReaches(low, high, if net >= Sum(NearBook(low, high)) then high else low, net);
  }

  // ---------------------------------------------------------------- the exact conditions

  /** The limits of every name together leave room for the net target within the gross target. */
  ghost predicate RoomUnderCaps(p: Problem, c: Constraints)
    requires Aligned(p)
  {
    HasRoom(LowBook(p, c), HighBook(p, c), c.netTarget, c.grossTarget)
  }

  lemma FeasibleMeans(p: Problem, c: Constraints, w: Vector)
    requires ValidProblem(p) && IsCapped(c)
    ensures Feasible(p, c, w) <==> Within(LowBook(p, c), w, HighBook(p, c)) && Sum(w) == c.netTarget && Gross(w) <= c.grossTarget
  {
    hide Sum, Gross, OneWayTurnover, Lowest, Highest;
    if |w| == p.n && Gross(w) <= c.grossTarget {
      hide Within;
      WithinMeans(p, c, w);
    }
  }

  lemma WithinMeans(p: Problem, c: Constraints, w: Vector)
    requires Aligned(p) && |w| == p.n && Gross(w) <= c.grossTarget
    ensures Within(LowBook(p, c), w, HighBook(p, c)) <==>
            && (c.maxPosition.Some? ==> forall i :: 0 <= i < p.n ==> Abs(w[i]) <= c.maxPosition.value)
            && (p.tradeCaps.Some? ==> forall i :: 0 <= i < p.n ==> Abs(w[i] - p.wPrev[i]) <= p.tradeCaps.value[i])
            && (forall i :: 0 <= i < p.n && !p.shortable[i] ==> w[i] >= 0.0)
  {
    hide Gross;
    forall i | 0 <= i < p.n
      ensures Lowest(p, c, i) <= w[i] <= Highest(p, c, i) <==>
              && (c.maxPosition.Some? ==> Abs(w[i]) <= c.maxPosition.value)
              && (p.tradeCaps.Some? ==> Abs(w[i] - p.wPrev[i]) <= p.tradeCaps.value[i])
              && (!p.shortable[i] ==> w[i] >= 0.0)
    {
      EntryBelowGross(w, i);
    }
  }

  /** With gross an upper bound, position, borrow and participation limits admit a book exactly when they leave it room. */
  lemma CappedFeasibleIff(p: Problem, c: Constraints)
    requires ValidProblem(p) && IsCapped(c)
    ensures (exists w :: Feasible(p, c, w)) <==> RoomUnderCaps(p, c)
  {
    hide Feasible, HasRoom, Within, LowBook, HighBook;
    if w :| Feasible(p, c, w) {
      FeasibleMeans(p, c, w);
      RoomNeeded(LowBook(p, c), w, HighBook(p, c));
      MoreGross(LowBook(p, c), HighBook(p, c), c.netTarget, Gross(w), c.grossTarget);
    }
    if RoomUnderCaps(p, c) {
      var w := RoomEnough(LowBook(p, c), HighBook(p, c), c.netTarget, c.grossTarget);
      FeasibleMeans(p, c, w);
    }
  }

  lemma MoreGross(low: Vector, high: Vector, net: real, less: real, more: real)
    requires |low| == |high| && less <= more && HasRoom(low, high, net, less)
    ensures HasRoom(low, high, net, more)
  {
  }

  /** In this mode no check reads the participation limit, so the checks miss exactly what position and borrow counts do not show. */
  lemma MissedUnderCapsIff(p: Problem, c: Constraints)
    requires ValidProblem(p) && IsCapped(c)
    ensures (forall k :: !Detected(p, c, k)) && !(exists w :: Feasible(p, c, w))
       <==> Silent(p.n, p.shortable, c) && !RoomUnderCaps(p, c)
  {
    hide Feasible, Times, CountTrue, LongRequirement, ShortRequirement, RoomUnderCaps;
    CappedFeasibleIff(p, c);
    if forall k :: !Detected(p, c, k) {
      assert !Detected(p, c, LongCapacity) && !Detected(p, c, NoShortableName) && !Detected(p, c, ShortCapacity);
    }
  }

  /** A name that may not be traded at all, and a net target that needs it to be: infeasible, and nothing reports it. */
  lemma ParticipationUnchecked(w: Vector)
    ensures var p, c := PlainProblem(1, [true]).(tradeCaps := Some([0.0])), PlainConstraints(1.0, false, 1.0, None, 0.000001);
            && ValidProblem(p) && ValidConstraints(c)
            && (forall k :: !Detected(p, c, k))
            && !Feasible(p, c, w)
  {
    var p, c := PlainProblem(1, [true]).(tradeCaps := Some([0.0])), PlainConstraints(1.0, false, 1.0, None, 0.000001);
    assert CountTrue(p.shortable[..0]) == 0;
    if |w| == 1 {
      assert w == [w[0]];
      SumOne(w[0]);
    }
  }

  // ---------------------------------------------------------------- how far participation lets gross grow

  /** The previous book pushed away from zero as far as the participation and position limits let each name go. */
  function PushedOut(p: Problem, c: Constraints): (w: Vector)
    requires p.tradeCaps.Some? && |p.tradeCaps.value| == |p.wPrev|
    ensures |w| == |p.wPrev|
  {
    seq(|p.wPrev|, i requires 0 <= i < |p.wPrev| => if p.wPrev[i] >= 0.0 then Reach(p, c)[i] else -Reach(p, c)[i])
  }

  /**
   * The gross the participation check takes to be reachable is the most that any book within the
   * participation and position limits has, and where there is such a book one has it.
   */
  lemma ReachIsTheMost(p: Problem, c: Constraints, w: Vector)
    requires ValidProblem(p) && ValidConstraints(c) && p.tradeCaps.Some? && |w| == p.n
    requires |p.tradeCaps.value| == |p.wPrev| == p.n
    requires forall i :: 0 <= i < p.n ==> Allowed(p, c, w[i], i)
    ensures Gross(w) <= Sum(Reach(p, c)) == Gross(PushedOut(p, c))
    ensures forall i :: 0 <= i < p.n ==> Allowed(p, c, PushedOut(p, c)[i], i)
  {
    hide Sum;
    SumMonotone(AbsAll(w), Reach(p, c));
    forall i | 0 <= i < p.n ensures Allowed(p, c, PushedOut(p, c)[i], i) && Abs(PushedOut(p, c)[i]) == Reach(p, c)[i] {
      assert Allowed(p, c, w[i], i);
    }
    assert AbsAll(PushedOut(p, c)) == Reach(p, c);
  }

  /** A weight within the participation limit of name i and the position cap. */
  predicate Allowed(p: Problem, c: Constraints, x: real, i: nat)
    requires p.tradeCaps.Some? && i < |p.tradeCaps.value| == |p.wPrev|
  {
    Abs(x - p.wPrev[i]) <= p.tradeCaps.value[i] && (c.maxPosition.Some? ==> Abs(x) <= c.maxPosition.value)
  }
}
