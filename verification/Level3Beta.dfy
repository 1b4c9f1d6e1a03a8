/** Exactly when a beta limit leaves room for a book, in either gross mode, and when the pre-solve checks say nothing about it. */
module Level3Beta {
  import opened Sums
  import opened Wrappers
  import opened Level3
  import opened Level3Feasibility
  import opened Level3Caps

  // ---------------------------------------------------------------- the exposure of a book

  lemma {:induction false} DotLinear(a: Vector, x: Vector, t: real, y: Vector, z: Vector)
    requires |a| == |x| == |y| == |z| && forall i :: 0 <= i < |z| ==> z[i] == x[i] + Times(t, y[i])
    ensures Dot(a, z) == Dot(a, x) + Times(t, Dot(a, y))
    decreases |a|
  {
    if a == [] {
      TimesByZero(t);
    } else {
      hide Times;
      var n := |a| - 1;
      DotLinear(a[..n], x[..n], t, y[..n], z[..n]);
      Distribute(a[n], x[n], Times(t, y[n]));
      Distribute(t, Dot(a[..n], y[..n]), Times(a[n], y[n]));
      Exchange(a[n], t, y[n]);
    }
  }

  lemma Exchange(x: real, y: real, z: real)
    ensures Times(x, Times(y, z)) == Times(y, Times(x, z))
  {
  }

  lemma DotOfDifference(a: Vector, x: Vector, y: Vector, z: Vector)
    requires |a| == |x| == |y| == |z| && forall i :: 0 <= i < |z| ==> z[i] == x[i] - y[i]
    ensures Dot(a, z) == Dot(a, x) - Dot(a, y)
  {
    hide Dot;
    DotLinear(a, x, -1.0, y, z);
  }

  lemma DotBlend(a: Vector, x: Vector, y: Vector, t: real)
    requires |a| == |x| == |y|
    ensures Dot(a, Blend(x, y, t)) == Dot(a, x) + Times(t, Dot(a, y) - Dot(a, x))
  {
    BlendEntries(x, y, t);
    hide Dot, Times, Minus, Blend;
    DotOfDifference(a, y, x, Minus(y, x));
    DotLinear(a, x, t, Minus(y, x), Blend(x, y, t));
  }

  /** The whole of x in one name. */
  function OneHeld(n: nat, i: nat, x: real): (v: Vector)
    ensures |v| == n
  {
    seq(n, k => if k == i then x else 0.0)
  }

  lemma {:induction false} OneHeldFacts(a: Vector, i: nat, x: real)
    requires i < |a|
    ensures Sum(OneHeld(|a|, i, x)) == x && Dot(a, OneHeld(|a|, i, x)) == Times(x, a[i])
    decreases |a|
  {
    var n := |a| - 1;
    assert OneHeld(|a|, i, x)[..n] == OneHeld(n, i, x);
    TimesByZero(a[n]);
    if i < n {
      OneHeldFacts(a[..n], i, x);
    } else {
      NothingHeld(a[..n], i, x);
      Commute(x, a[n]);
    }
  }

  lemma {:induction false} NothingHeld(a: Vector, i: nat, x: real)
    requires i >= |a|
    ensures Sum(OneHeld(|a|, i, x)) == 0.0 && Dot(a, OneHeld(|a|, i, x)) == 0.0
    decreases |a|
  {
    if a != [] {
      var n := |a| - 1;
      NothingHeld(a[..n], i, x);
      assert OneHeld(|a|, i, x)[..n] == OneHeld(n, i, x);
      TimesByZero(a[n]);
    }
  }

  // ---------------------------------------------------------------- the extreme betas

  /** Where the greatest flagged entry is. */
  function MostAt(v: Vector, flags: seq<bool>): (i: nat)
    requires |v| == |flags| && CountTrue(flags) > 0
    ensures i < |v| && flags[i] && forall k :: 0 <= k < |v| && flags[k] ==> v[k] <= v[i]
  {
    var n := |v| - 1;
    if CountTrue(flags[..n]) == 0 then
      NoneTrue(flags[..n]);
      n
    else
      var i := MostAt(v[..n], flags[..n]);
      if flags[n] && v[n] > v[i] then n else i
  }

  /** Where the least flagged entry is. */
  function LeastAt(v: Vector, flags: seq<bool>): (i: nat)
    requires |v| == |flags| && CountTrue(flags) > 0
    ensures i < |v| && flags[i] && forall k :: 0 <= k < |v| && flags[k] ==> v[i] <= v[k]
  {
    NegatedEntries(v);
    MostAt(Negated(v), flags)
  }

  function Negated(v: Vector): (r: Vector)
    ensures |r| == |v|
  {
    seq(|v|, i requires 0 <= i < |v| => -v[i])
  }

  lemma NegatedEntries(v: Vector)
    ensures forall i, k :: 0 <= i < |v| && 0 <= k < |v| && Negated(v)[k] <= Negated(v)[i] ==> v[i] <= v[k]
  {
  }

  function Greatest(v: Vector, flags: seq<bool>): real
    requires |v| == |flags| && CountTrue(flags) > 0
  {
    v[MostAt(v, flags)]
  }

  function Least(v: Vector, flags: seq<bool>): real
    requires |v| == |flags| && CountTrue(flags) > 0
  {
    v[LeastAt(v, flags)]
  }

  // ---------------------------------------------------------------- the exposure of one side

  lemma {:induction false} SideBetween(beta: Vector, v: Vector, flags: seq<bool>, low: real, high: real)
    requires |beta| == |v| == |flags|
    requires forall i :: 0 <= i < |v| ==> v[i] >= 0.0 && (!flags[i] ==> v[i] == 0.0)
    requires forall i :: 0 <= i < |v| && flags[i] ==> low <= beta[i] <= high
    ensures Times(Sum(v), low) <= Dot(beta, v) <= Times(Sum(v), high)
    decreases |v|
  {
    if v == [] {
      TimesByZero(low);
      TimesByZero(high);
    } else {
      hide Times;
      var n := |v| - 1;
      SideBetween(beta[..n], v[..n], flags[..n], low, high);
      Commute(Sum(v[..n]) + v[n], low);
      Commute(Sum(v[..n]) + v[n], high);
      Distribute(low, Sum(v[..n]), v[n]);
      Distribute(high, Sum(v[..n]), v[n]);
      Commute(Sum(v[..n]), low);
      Commute(Sum(v[..n]), high);
      if flags[n] {
        Heavier(low, beta[n], v[n]);
        Heavier(beta[n], high, v[n]);
      } else {
        TimesByZero(low);
        TimesByZero(high);
        TimesByZero(beta[n]);
      }
    }
  }

  lemma Heavier(x: real, y: real, k: real)
    requires x <= y && k >= 0.0
    ensures Times(x, k) <= Times(y, k) && Times(k, x) <= Times(k, y)
  {
    NonNegative(y - x, k);
  }

  /** A side's exposure lies between holding all of it in one of its names and all of it in another. */
  lemma SideExtremes(beta: Vector, v: Vector, flags: seq<bool>) returns (most: nat, least: nat)
    requires |beta| == |v| == |flags| > 0
    requires forall i :: 0 <= i < |v| ==> v[i] >= 0.0 && (!flags[i] ==> v[i] == 0.0)
    ensures most < |v| && least < |v| && (Sum(v) > 0.0 ==> flags[most] && flags[least])
    ensures Times(Sum(v), beta[least]) <= Dot(beta, v) <= Times(Sum(v), beta[most])
  {
    hide Times, Dot, Sum;
    if CountTrue(flags) > 0 {
      most := MostAt(beta, flags);
      least := LeastAt(beta, flags);
      SideBetween(beta, v, flags, beta[least], beta[most]);
    } else {
      NoneTrue(flags);
      SumConstant(v, 0.0);
      most, least := 0, 0;
      SideBetween(beta, v, flags, beta[0], beta[0]);
    }
  }

  // ---------------------------------------------------------------- two extreme books and what lies between

  /** A point between x and y within the band. */
  lemma Between(x: real, y: real, limit: real) returns (t: real)
    requires x >= -limit && y <= limit && limit >= 0.0
    ensures 0.0 <= t <= 1.0 && Abs(x + Times(t, y - x)) <= limit
  {
    hide Times;
    if x <= limit {
      t := 0.0;
      TimesByZero(y - x);
    } else {
      t := Fraction(limit - x, y - x);
    }
  }

  /** A long side spread over two names at most, and a short side over two, within the beta limit. */
  lemma PairsReach(beta: Vector, long: real, i: nat, k: nat, short: real, j: nat, l: nat, limit: real)
    returns (u: Vector, v: Vector)
    requires i < |beta| && k < |beta| && j < |beta| && l < |beta| && long >= 0.0 && short >= 0.0 && limit >= 0.0
    requires Times(long, beta[i]) - Times(short, beta[j]) >= -limit
    requires Times(long, beta[k]) - Times(short, beta[l]) <= limit
    ensures |u| == |v| == |beta| && Sum(u) == long && Sum(v) == short && Abs(Dot(beta, u) - Dot(beta, v)) <= limit
    ensures HeldBy(u, i, k) && HeldBy(v, j, l)
  {
    hide Times, Sum, Dot, HeldBy;
    var n := |beta|;
    var t := Between(Times(long, beta[i]) - Times(short, beta[j]), Times(long, beta[k]) - Times(short, beta[l]), limit);
    u := BetweenTwo(beta, long, i, k, t);
    v := BetweenTwo(beta, short, j, l, t);
    Spread(t, Times(long, beta[i]), Times(long, beta[k]), Times(short, beta[j]), Times(short, beta[l]));
  }

  lemma Spread(t: real, a: real, b: real, c: real, d: real)
    ensures a - c + Times(t, b - d - (a - c)) == a + Times(t, b - a) - (c + Times(t, d - c))
  {
  }

  predicate HeldBy(v: Vector, i: nat, k: nat) {
    forall m :: 0 <= m < |v| ==> v[m] >= 0.0 && (m != i && m != k ==> v[m] == 0.0)
  }

  lemma BetweenTwo(beta: Vector, x: real, i: nat, k: nat, t: real) returns (u: Vector)
    requires i < |beta| && k < |beta| && x >= 0.0 && 0.0 <= t <= 1.0
    ensures |u| == |beta| && Sum(u) == x && HeldBy(u, i, k)
    ensures Dot(beta, u) == Times(x, beta[i]) + Times(t, Times(x, beta[k]) - Times(x, beta[i]))
  {
    hide Times, Sum, Dot;
    var a, b := OneHeld(|beta|, i, x), OneHeld(|beta|, k, x);
    u := Blend(a, b, t);
    OneHeldFacts(beta, i, x);
    OneHeldFacts(beta, k, x);
    BlendSum(a, b, t);
    TimesByZero(t);
    DotBlend(beta, a, b, t);
    PartOf(t, x);
    PartOf(t, -x);
    assert 0.0 - x == -x;
  }

  /** The book of two sides. */
  lemma SidesMakeBook(u: Vector, v: Vector)
    requires |u| == |v| && forall i :: 0 <= i < |u| ==> u[i] >= 0.0 && v[i] >= 0.0
    ensures Sum(Minus(u, v)) == Sum(u) - Sum(v) && Gross(Minus(u, v)) <= Sum(u) + Sum(v)
    ensures (forall i :: 0 <= i < |u| ==> u[i] == 0.0 || v[i] == 0.0) ==> Gross(Minus(u, v)) == Sum(u) + Sum(v)
  {
    EntriesOfBook(u, v);
    hide Sum, AbsAll, Minus, Plus;
    SumOfDifferences(u, v, Minus(u, v));
    SumOfSums(u, v, Plus(u, v));
    SumMonotone(AbsAll(Minus(u, v)), Plus(u, v));
  }

  lemma EntriesOfBook(u: Vector, v: Vector)
    requires |u| == |v| && forall i :: 0 <= i < |u| ==> u[i] >= 0.0 && v[i] >= 0.0
    ensures forall i :: 0 <= i < |u| ==> Minus(u, v)[i] == u[i] - v[i]
    ensures forall i :: 0 <= i < |u| ==> Plus(u, v)[i] == u[i] + v[i]
    ensures forall i :: 0 <= i < |u| ==> AbsAll(Minus(u, v))[i] <= Plus(u, v)[i]
    ensures (forall i :: 0 <= i < |u| ==> u[i] == 0.0 || v[i] == 0.0) ==> AbsAll(Minus(u, v)) == Plus(u, v)
  {
  }

  // ---------------------------------------------------------------- the exact conditions

  /** Only gross, net, borrow and beta constraints are configured. */
  predicate IsBetaLimited(p: Problem, c: Constraints) {
    && p.betas.Some? && p.tradeCaps.None? && c.betaLimit.Some?
    && c.maxPosition.None? && c.sectorLimit.None? && c.countryLimit.None? && c.turnoverLimit.None? && c.volatility.None?
  }

  lemma FeasibleMeansBeta(p: Problem, c: Constraints, w: Vector)
    requires ValidProblem(p) && IsBetaLimited(p, c)
    ensures Feasible(p, c, w) <==>
            && |w| == p.n && Sum(w) == c.netTarget
            && Gross(w) <= c.grossTarget && (c.grossEquality ==> Gross(w) >= c.grossTarget)
            && Abs(Dot(p.betas.value, w)) <= c.betaLimit.value
            && forall i :: 0 <= i < p.n && !p.shortable[i] ==> w[i] >= 0.0
  {
    hide Sum, Gross, Dot, OneWayTurnover;
  }

  function LongSide(c: Constraints): real {
    (c.grossTarget + c.netTarget) / 2.0
  }

  function ShortSide(c: Constraints): real {
    (c.grossTarget - c.netTarget) / 2.0
  }

  /** The exposures of a feasible book's two sides, each between those of two of its names. */
  lemma FeasiblePairs(p: Problem, c: Constraints, w: Vector)
    returns (long: real, i: nat, k: nat, short: real, j: nat, l: nat)
    requires ValidProblem(p) && ValidConstraints(c) && IsBetaLimited(p, c) && Feasible(p, c, w)
    ensures long >= 0.0 && short >= 0.0 && long - short == c.netTarget
    ensures long + short <= c.grossTarget && (c.grossEquality ==> long + short == c.grossTarget)
    ensures i < p.n && k < p.n && j < p.n && l < p.n
    ensures long > 0.0 ==> w[i] > 0.0 && w[k] > 0.0
    ensures short > 0.0 ==> w[j] < 0.0 && w[l] < 0.0 && p.shortable[j] && p.shortable[l]
    ensures Times(long, p.betas.value[i]) - Times(short, p.betas.value[j]) >= -c.betaLimit.value
    ensures Times(long, p.betas.value[k]) - Times(short, p.betas.value[l]) <= c.betaLimit.value
  {
    hide Times, Sum, Dot, Gross, CountTrue, Feasible;
    FeasibleMeansBeta(p, c, w);
    var beta := p.betas.value;
    long, short := Sum(Longs(w)), Sum(Shorts(w));
    Sides(w);
    SideNonNegative(Longs(w));
    SideNonNegative(Shorts(w));
    DotOfDifference(beta, Longs(w), Shorts(w), w);
    i, k := SideExtremes(beta, Longs(w), LongNames(w));
    l, j := SideExtremes(beta, Shorts(w), ShortNames(w));
  }

  /** With gross an upper bound: the extreme exposures of the whole book do not both lie beyond the limit on one side. */
  predicate BetaRoom(p: Problem, c: Constraints)
    requires |p.shortable| == p.n > 0 && IsBetaLimited(p, c) && |p.betas.value| == p.n
  {
    var beta, limit, all := p.betas.value, c.betaLimit.value, Everyone(p.n);
    if CountTrue(p.shortable) == 0 then
      c.netTarget >= 0.0
      && Times(c.netTarget, Greatest(beta, all)) >= -limit && Times(c.netTarget, Least(beta, all)) <= limit
    else
      && Times(LongSide(c), Greatest(beta, all)) - Times(ShortSide(c), Least(beta, p.shortable)) >= -limit
      && Times(LongSide(c), Least(beta, all)) - Times(ShortSide(c), Greatest(beta, p.shortable)) <= limit
  }

  function Everyone(n: nat): (flags: seq<bool>)
    ensures |flags| == n && CountTrue(flags) == n
  {
    AllTrue(n);
    seq(n, _ => true)
  }

  /** Taking both sides further in step widens the exposures they can reach. */
  lemma Widen(long: real, short: real, more: real, high: real, low: real)
    requires more >= 0.0 && high >= low
    ensures Times(long, high) - Times(short, low) <= Times(long + more, high) - Times(short + more, low)
    ensures Times(long, low) - Times(short, high) >= Times(long + more, low) - Times(short + more, high)
  {
    NonNegative(more, high - low);
  }

  lemma BetaRoomNeeded(p: Problem, c: Constraints, w: Vector)
    requires ValidProblem(p) && ValidConstraints(c) && IsBetaLimited(p, c) && !c.grossEquality && Feasible(p, c, w)
    ensures BetaRoom(p, c)
  {
    hide Times, Sum, Dot, Gross, CountTrue, Feasible, ValidProblem, MostAt, LeastAt;
    BetasAligned(p);
    var beta, all := p.betas.value, Everyone(p.n);
    var long, i, k, short, j, l := FeasiblePairs(p, c, w);
    var hi := MostAt(beta, all);
    var lo := LeastAt(beta, all);
    Heavier(beta[i], beta[hi], long);
    Heavier(beta[lo], beta[k], long);
    if CountTrue(p.shortable) == 0 {
      NoneTrue(p.shortable);
      assert short == 0.0;
      TimesByZero(beta[j]);
      TimesByZero(beta[l]);
    } else {
      var sHi := MostAt(beta, p.shortable);
      var sLo := LeastAt(beta, p.shortable);
      if short > 0.0 {
        Heavier(beta[sLo], beta[j], short);
        Heavier(beta[l], beta[sHi], short);
      } else {
        TimesByZero(beta[j]);
        TimesByZero(beta[l]);
        TimesByZero(beta[sLo]);
        TimesByZero(beta[sHi]);
      }
      Widen(long, short, LongSide(c) - long, beta[hi], beta[sLo]);
      Widen(long, short, LongSide(c) - long, beta[sHi], beta[lo]);
    }
  }

  lemma BetasAligned(p: Problem)
    requires ValidProblem(p) && p.betas.Some?
    ensures |p.betas.value| == |p.shortable| == p.n > 0
  {
  }

  lemma BetaRoomEnough(p: Problem, c: Constraints) returns (w: Vector)
    requires ValidProblem(p) && ValidConstraints(c) && IsBetaLimited(p, c) && !c.grossEquality && BetaRoom(p, c)
    ensures Feasible(p, c, w)
  {
    hide Times, Sum, Dot, Gross, CountTrue, Feasible, ValidProblem, MostAt, LeastAt;
    BetasAligned(p);
    var beta, all, limit := p.betas.value, Everyone(p.n), c.betaLimit.value;
    var hi := MostAt(beta, all);
    var lo := LeastAt(beta, all);
    var u, v;
    if CountTrue(p.shortable) == 0 {
      TimesByZero(beta[0]);
      u, v := PairsReach(beta, c.netTarget, hi, lo, 0.0, 0, 0, limit);
      AllZero(v);
    } else {
      var sHi := MostAt(beta, p.shortable);
      var sLo := LeastAt(beta, p.shortable);
      u, v := PairsReach(beta, LongSide(c), hi, lo, ShortSide(c), sLo, sHi, limit);
    }
    w := Minus(u, v);
    SidesMakeBook(u, v);
    DotOfDifference(beta, u, v, w);
    FeasibleMeansBeta(p, c, w);
  }

  /** A side that adds up to nothing holds nothing. */
  lemma AllZero(v: Vector)
    requires Sum(v) == 0.0 && forall i :: 0 <= i < |v| ==> v[i] >= 0.0
    ensures forall i :: 0 <= i < |v| ==> v[i] == 0.0
  {
    hide Sum;
    assert AbsAll(v) == v;
    forall i | 0 <= i < |v| ensures v[i] == 0.0 {
      EntryBelowGross(v, i);
    }
  }

  /** With gross an upper bound, a beta limit admits a book exactly when it meets the range between the extreme exposures. */
  lemma BetaFeasibleIff(p: Problem, c: Constraints)
    requires ValidProblem(p) && ValidConstraints(c) && IsBetaLimited(p, c) && !c.grossEquality
    ensures (exists w :: Feasible(p, c, w)) <==> BetaRoom(p, c)
  {
    hide Feasible, BetaRoom;
    if w :| Feasible(p, c, w) {
      BetaRoomNeeded(p, c, w);
    }
    if BetaRoom(p, c) {
      var w := BetaRoomEnough(p, c);
    }
  }

  // ---------------------------------------------------------------- gross as an equality

  /** A book long i and short j, and one long k and short l, one on each side of the limit, that never share a name. */
  predicate PairFits(p: Problem, c: Constraints, i: nat, k: nat, j: nat, l: nat)
    requires |p.shortable| == p.n && IsBetaLimited(p, c) && |p.betas.value| == p.n
  {
    && i < p.n && k < p.n && j < p.n && l < p.n
    && (LongSide(c) > 0.0 && ShortSide(c) > 0.0 ==> i != j && i != l && k != j && k != l)
    && (ShortSide(c) > 0.0 ==> p.shortable[j] && p.shortable[l])
    && Times(LongSide(c), p.betas.value[i]) - Times(ShortSide(c), p.betas.value[j]) >= -c.betaLimit.value
    && Times(LongSide(c), p.betas.value[k]) - Times(ShortSide(c), p.betas.value[l]) <= c.betaLimit.value
  }

  ghost predicate SomePairFits(p: Problem, c: Constraints)
    requires |p.shortable| == p.n && IsBetaLimited(p, c) && |p.betas.value| == p.n
  {
    exists i, k, j, l :: PairFits(p, c, i, k, j, l)
  }

  lemma PairMakesFeasible(p: Problem, c: Constraints, i: nat, k: nat, j: nat, l: nat) returns (w: Vector)
    requires ValidProblem(p) && ValidConstraints(c) && IsBetaLimited(p, c) && c.grossEquality
    requires |p.betas.value| == |p.shortable| == p.n && PairFits(p, c, i, k, j, l)
    ensures Feasible(p, c, w)
  {
    hide Times, Sum, Dot, Gross, Feasible, ValidProblem;
    var beta := p.betas.value;
    var u, v := PairsReach(beta, LongSide(c), i, k, ShortSide(c), j, l, c.betaLimit.value);
    if LongSide(c) == 0.0 {
      AllZero(u);
    }
    if ShortSide(c) == 0.0 {
      AllZero(v);
    }
    w := Minus(u, v);
    SidesMakeBook(u, v);
    DotOfDifference(beta, u, v, w);
    FeasibleMeansBeta(p, c, w);
  }

  /** With gross as an equality, a beta limit admits a book exactly when two such pairs of names straddle it. */
  lemma BetaFeasibleAtGrossIff(p: Problem, c: Constraints)
    requires ValidProblem(p) && ValidConstraints(c) && IsBetaLimited(p, c) && c.grossEquality
    ensures (exists w :: Feasible(p, c, w)) <==> SomePairFits(p, c)
  {
    hide Feasible, Times, ValidProblem;
    BetasAligned(p);
    if w :| Feasible(p, c, w) {
      var long, i, k, short, j, l := FeasiblePairs(p, c, w);
      assert PairFits(p, c, i, k, j, l);
    }
    if i, k, j, l :| PairFits(p, c, i, k, j, l) {
      var w := PairMakesFeasible(p, c, i, k, j, l);
    }
  }

  // ---------------------------------------------------------------- silence

  /** No check reads the beta limit, so in either mode the checks miss exactly what the borrow check does not show. */
  lemma MissedUnderBetaIff(p: Problem, c: Constraints)
    requires ValidProblem(p) && ValidConstraints(c) && IsBetaLimited(p, c)
    ensures (forall k :: !Detected(p, c, k)) && !(exists w :: Feasible(p, c, w))
       <==> (ShortRequirement(c) > c.tolerance ==> CountTrue(p.shortable) > 0)
            && !(if c.grossEquality then SomePairFits(p, c) else BetaRoom(p, c))
  {
    hide Feasible, Times, CountTrue, LongRequirement, ShortRequirement, BetaRoom, SomePairFits, ValidProblem;
    BetasAligned(p);
    if c.grossEquality {
      BetaFeasibleAtGrossIff(p, c);
    } else {
      BetaFeasibleIff(p, c);
    }
    if forall k :: !Detected(p, c, k) {
      assert !Detected(p, c, NoShortableName);
    }
  }

  /** In either mode: a net of 1 in a name of beta 1, and a limit of 0. Infeasible, and nothing reports it. */
  lemma BetaLimitUnchecked(w: Vector, equality: bool)
    ensures var p := PlainProblem(1, [true]).(betas := Some([1.0]));
            var c := PlainConstraints(1.0, equality, 1.0, None, 0.000001).(betaLimit := Some(0.0));
            && ValidProblem(p) && ValidConstraints(c)
            && (forall k :: !Detected(p, c, k))
            && !Feasible(p, c, w)
  {
    var p := PlainProblem(1, [true]).(betas := Some([1.0]));
    var c := PlainConstraints(1.0, equality, 1.0, None, 0.000001).(betaLimit := Some(0.0));
    assert CountTrue(p.shortable[..0]) == 0;
    if |w| == 1 {
      assert w == [w[0]] && w[..0] == [] && [1.0][..0] == [];
      SumOne(w[0]);
      assert Dot([1.0], w) == w[0];
    }
  }
}
