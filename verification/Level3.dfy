/** The constrained optimizer's checks around the solver: static conflicts, washes, final verification. */
module Level3 {
  import opened Sums
  import opened Ordering
  import opened Wrappers
  import opened Dictionaries

  type Vector = seq<real>

  // ---------------------------------------------------------------- the problem

  /** One indicator vector per group name. */
  type Groups = map<string, Vector>

  datatype Problem = Problem(
    n: nat,                      // tradable names, ascending by id
    wPrev: Vector,               // drifted pre-trade weights over the names
    exits: map<Id, real>,    // forced closes: pre-trade weights of names that left the universe
    shortable: seq<bool>,        // false for a hard-to-borrow name
    betas: Option<Vector>,
    sectors: Groups,
    countries: Groups,
    tradeCaps: Option<Vector>,   // per-name participation caps, in weight units
    covariance: Option<seq<Vector>>)

  datatype Constraints = Constraints(
    grossTarget: real, grossEquality: bool, netTarget: real,
    maxPosition: Option<real>, betaLimit: Option<real>, sectorLimit: Option<real>, countryLimit: Option<real>,
    turnoverLimit: Option<real>, volatility: Option<VolatilityCap>, tolerance: real)

  /** An annualized target volatility, and how many periods make a year. */
  datatype VolatilityCap = VolatilityCap(target: real, periods: real)

  predicate NonNegativeLimit(limit: Option<real>) {
    limit.Some? ==> limit.value >= 0.0
  }

  /** Configurations that fail these checks are refused when they are built. */
  predicate ValidConstraints(c: Constraints) {
    && c.grossTarget > 0.0 && Abs(c.netTarget) <= c.grossTarget
    && (c.maxPosition.Some? ==> c.maxPosition.value > 0.0)
    && NonNegativeLimit(c.betaLimit) && NonNegativeLimit(c.sectorLimit) && NonNegativeLimit(c.countryLimit)
    && NonNegativeLimit(c.turnoverLimit) && c.tolerance > 0.0
    && (c.volatility.Some? ==> c.volatility.value.target > 0.0 && c.volatility.value.periods > 0.0)
  }

  /** Every name carries exactly one label. */
  ghost predicate IsGrouping(groups: Groups, labels: seq<string>) {
    && (forall g :: g in groups <==> g in labels)
    && forall g :: g in groups ==> groups[g] == Indicator(labels, g)
  }

  function Indicator(labels: seq<string>, g: string): (v: Vector)
    ensures |v| == |labels|
  {
    seq(|labels|, i requires 0 <= i < |labels| => if labels[i] == g then 1.0 else 0.0)
  }

  /** A square matrix under which no book has a negative variance; others are refused before the solve. */
  ghost predicate IsCovariance(sigma: seq<Vector>, n: nat) {
    && IsSquare(sigma, n)
    && forall w: Vector :: |w| == n ==> Variance(sigma, w) >= 0.0
  }

  predicate IsSquare(sigma: seq<Vector>, n: nat) {
    |sigma| == n && forall i :: 0 <= i < n ==> |sigma[i]| == n
  }

  ghost predicate ValidProblem(p: Problem) {
    && p.n > 0 && |p.wPrev| == p.n && |p.shortable| == p.n
    && (p.betas.Some? ==> |p.betas.value| == p.n)
    && (p.tradeCaps.Some? ==> |p.tradeCaps.value| == p.n && forall i :: 0 <= i < p.n ==> p.tradeCaps.value[i] >= 0.0)
    && (p.covariance.Some? ==> IsCovariance(p.covariance.value, p.n))
    && (p.sectors != map[] ==> exists labels :: |labels| == p.n && IsGrouping(p.sectors, labels))
    && (p.countries != map[] ==> exists labels :: |labels| == p.n && IsGrouping(p.countries, labels))
  }

  // ---------------------------------------------------------------- vector quantities

  function AbsAll(w: Vector): (v: Vector)
    ensures |v| == |w|
  {
    seq(|w|, i requires 0 <= i < |w| => Abs(w[i]))
  }

  function Minus(a: Vector, b: Vector): (v: Vector)
    requires |a| == |b|
    ensures |v| == |a|
  {
    seq(|a|, i requires 0 <= i < |a| => a[i] - b[i])
  }

  function Dot(a: Vector, b: Vector): real
    requires |a| == |b|
  {
    if a == [] then 0.0 else Dot(a[..|a| - 1], b[..|b| - 1]) + Times(a[|a| - 1], b[|b| - 1])
  }

  function Apply(sigma: seq<Vector>, w: Vector): (v: Vector)
    requires IsSquare(sigma, |w|)
    ensures |v| == |w|
  {
    seq(|w|, i requires 0 <= i < |w| => Dot(sigma[i], w))
  }

  /** w' sigma w */
  function Variance(sigma: seq<Vector>, w: Vector): real
    requires IsSquare(sigma, |w|)
  {
    Dot(Apply(sigma, w), w)
  }

  function Gross(w: Vector): real {
    Sum(AbsAll(w))
  }

  ghost function ExitsTwoWay(p: Problem): real {
    MapSum(map k | k in p.exits :: Abs(p.exits[k]))
  }

  ghost function OneWayTurnover(p: Problem, w: Vector): real
    requires |w| == |p.wPrev|
  {
    0.5 * (Gross(Minus(w, p.wPrev)) + ExitsTwoWay(p))
  }

  /** Every enforced constraint, each met within a band: zero for the constraint set itself. */
  ghost predicate Meets(p: Problem, c: Constraints, w: Vector, band: real)
    requires ValidProblem(p)
  {
    && |w| == p.n
    && Gross(w) <= c.grossTarget + band
    && (c.grossEquality ==> Gross(w) >= c.grossTarget - band)
    && Abs(c.netTarget - Sum(w)) <= band
    && (c.maxPosition.Some? ==> forall i :: 0 <= i < p.n ==> Abs(w[i]) <= c.maxPosition.value + band)
    && (c.betaLimit.Some? && p.betas.Some? ==> Abs(Dot(p.betas.value, w)) <= c.betaLimit.value + band)
    && GroupsMeet(p.sectors, c.sectorLimit, w, band)
    && GroupsMeet(p.countries, c.countryLimit, w, band)
    && (c.turnoverLimit.Some? ==> OneWayTurnover(p, w) <= c.turnoverLimit.value + band)
    && (p.tradeCaps.Some? ==> forall i :: 0 <= i < p.n ==> Abs(w[i] - p.wPrev[i]) <= p.tradeCaps.value[i] + band)
    && (forall i :: 0 <= i < p.n && !p.shortable[i] ==> w[i] >= -band)
    && VolatilityMeets(p, c, w, band)
  }

  /** sqrt(periods * w' sigma w) <= target + band, with both sides squared. */
  predicate VolatilityMeets(p: Problem, c: Constraints, w: Vector, band: real) {
    c.volatility.Some? && p.covariance.Some? && IsSquare(p.covariance.value, |w|) ==>
      var cap := c.volatility.value;
      Times(cap.periods, Variance(p.covariance.value, w)) <= Times(cap.target + band, cap.target + band)
  }

  ghost predicate GroupsMeet(groups: Groups, limit: Option<real>, w: Vector, band: real) {
    limit.Some? ==> forall g :: g in groups && |groups[g]| == |w| ==> Abs(Dot(groups[g], w)) <= limit.value + band
  }

  /** The constraint set: no book outside it is acceptable. */
  ghost predicate Feasible(p: Problem, c: Constraints, w: Vector)
    requires ValidProblem(p)
  {
    Meets(p, c, w, 0.0)
  }

  /** A wider band only admits more, so every feasible book passes verification within any tolerance. */
  lemma BandWidens(p: Problem, c: Constraints, w: Vector, a: real, b: real)
    requires ValidProblem(p) && ValidConstraints(c) && 0.0 <= a <= b && Meets(p, c, w, a)
    ensures Meets(p, c, w, b)
  {
    hide Gross, Sum, Dot, OneWayTurnover, Variance, IsGrouping, Times;
    if c.volatility.Some? {
      SquaresOrdered(c.volatility.value.target + a, c.volatility.value.target + b);
    }
  }

  // ---------------------------------------------------------------- long and short sides

  function Longs(w: Vector): (v: Vector)
    ensures |v| == |w|
  {
    seq(|w|, i requires 0 <= i < |w| => Max(w[i], 0.0))
  }

  function Shorts(w: Vector): (v: Vector)
    ensures |v| == |w|
  {
    seq(|w|, i requires 0 <= i < |w| => Max(-w[i], 0.0))
  }

  /** A book is its long side less its short side; its gross is their sum. */
  lemma Sides(w: Vector)
    ensures Gross(w) == Sum(Longs(w)) + Sum(Shorts(w))
    ensures Sum(w) == Sum(Longs(w)) - Sum(Shorts(w))
  {
    SumLinear(Longs(w), 1.0, Shorts(w), AbsAll(w));
    SumLinear(Longs(w), -1.0, Shorts(w), w);
  }

  lemma SideNonNegative(v: Vector)
    requires forall i :: 0 <= i < |v| ==> v[i] >= 0.0
    ensures Sum(v) >= 0.0
  {
    var zero := seq(|v|, _ => 0.0);
    SumConstant(zero, 0.0);
    SumMonotone(zero, v);
  }

  function CountTrue(s: seq<bool>): (k: nat)
    ensures k <= |s|
  {
    if s == [] then 0 else CountTrue(s[..|s| - 1]) + if s[|s| - 1] then 1 else 0
  }

  /** Each flagged entry is at most the cap and the others are at most zero. */
  lemma {:induction false} CappedSum(v: Vector, flags: seq<bool>, cap: real)
    requires |v| == |flags|
    requires forall i :: 0 <= i < |v| ==> v[i] <= if flags[i] then cap else 0.0
    ensures Sum(v) <= Times(cap, CountTrue(flags) as real)
    decreases |v|
  {
    if v == [] {
      assert Times(cap, 0.0) == 0.0;
    } else {
      hide Times;
      var n := |v| - 1;
      CappedSum(v[..n], flags[..n], cap);
      OneMore(cap, CountTrue(flags[..n]) as real);
    }
  }

  lemma {:induction false} AllTrue(n: nat)
    ensures CountTrue(seq(n, _ => true)) == n
  {
    if n > 0 {
      AllTrue(n - 1);
      assert seq(n, _ => true)[..n - 1] == seq(n - 1, _ => true);
    }
  }

  // ---------------------------------------------------------------- distances between books

  /** The traded gross is at least the change in gross and the change in net. */
  lemma {:induction false} TradeDistance(a: Vector, b: Vector)
    requires |a| == |b|
    ensures Gross(Minus(a, b)) >= Abs(Gross(a) - Gross(b))
    ensures Gross(Minus(a, b)) >= Abs(Sum(a) - Sum(b))
    decreases |a|
  {
    if a != [] {
      var n := |a| - 1;
      TradeDistance(a[..n], b[..n]);
      assert Minus(a, b)[..n] == Minus(a[..n], b[..n]);
      assert AbsAll(Minus(a, b))[..n] == AbsAll(Minus(a[..n], b[..n]));
      assert AbsAll(a)[..n] == AbsAll(a[..n]) && AbsAll(b)[..n] == AbsAll(b[..n]);
    }
  }

  // ---------------------------------------------------------------- groups partition the names

  function NetByGroup(labels: seq<string>, w: Vector): map<string, real>
    requires |labels| == |w|
  {
    map g | g in labels :: Dot(Indicator(labels, g), w)
  }

  lemma IndicatorStep(labels: seq<string>, w: Vector, g: string)
    requires |labels| == |w| > 0
    ensures var n := |w| - 1;
            Dot(Indicator(labels, g), w)
              == Dot(Indicator(labels[..n], g), w[..n]) + if labels[n] == g then w[n] else 0.0
  {
    var n := |w| - 1;
    assert Indicator(labels, g)[..n] == Indicator(labels[..n], g);
    assert Times(1.0, w[n]) == w[n] && Times(0.0, w[n]) == 0.0;
  }

  lemma {:induction false} AbsentGroup(labels: seq<string>, w: Vector, g: string)
    requires |labels| == |w| && g !in labels
    ensures Dot(Indicator(labels, g), w) == 0.0
    decreases |w|
  {
    if w != [] {
      IndicatorStep(labels, w, g);
      AbsentGroup(labels[..|w| - 1], w[..|w| - 1], g);
    }
  }

  /** Every name is in exactly one group, so the group nets add up to the book's net. */
  lemma {:induction false} GroupsPartition(labels: seq<string>, w: Vector)
    requires |labels| == |w|
    ensures MapSum(NetByGroup(labels, w)) == Sum(w)
    decreases |w|
  {
    hide MapSum, Dot, Indicator;
    if w == [] {
      assert NetByGroup(labels, w) == map[];
      EmptySum();
    } else {
      var n := |w| - 1;
      var front, h := labels[..n], labels[n];
      var before := NetByGroup(front, w[..n]);
      GroupsPartition(front, w[..n]);
      if h !in front { AbsentGroup(front, w[..n], h); }
      forall g | g in labels
        ensures NetByGroup(labels, w)[g] == if g == h then At(before, h) + w[n] else before[g]
      {
        IndicatorStep(labels, w, g);
      }
      assert NetByGroup(labels, w) == before[h := At(before, h) + w[n]];
      MapSumReplace(before, h, At(before, h) + w[n]);
    }
  }

  lemma BoundedMapSum(m: map<string, real>, limit: real)
    requires forall g :: g in m ==> Abs(m[g]) <= limit
    ensures Abs(MapSum(m)) <= Times(limit, |m.Keys| as real)
  {
    hide Times, MapSum;
    SumBelow(m, limit);
    SumAbove(m, -limit);
    NegativeFactor(limit, |m.Keys| as real);
  }

  lemma SumBelow(m: map<string, real>, high: real)
    requires forall g :: g in m ==> m[g] <= high
    ensures MapSum(m) <= Times(high, |m.Keys| as real)
  {
    hide Times, MapSum;
    var constant := map g | g in m :: high;
    assert constant.Keys == m.Keys;
    MapSumConstant(constant, high);
    MapSumMonotone(m, constant);
  }

  lemma SumAbove(m: map<string, real>, low: real)
    requires forall g :: g in m ==> m[g] >= low
    ensures MapSum(m) >= Times(low, |m.Keys| as real)
  {
    hide Times, MapSum;
    var constant := map g | g in m :: low;
    assert constant.Keys == m.Keys;
    MapSumConstant(constant, low);
    MapSumMonotone(constant, m);
  }

  lemma NegativeFactor(x: real, y: real)
    ensures Times(-x, y) == -Times(x, y)
  {
  }

  // ---------------------------------------------------------------- static conflicts

  datatype Conflict =
    | LongCapacity | NoShortableName | ShortCapacity | TurnoverTooTight | ParticipationTooTight
    | SectorCapacity | CountryCapacity

  function LongRequirement(c: Constraints): real {
    if c.grossEquality then (c.grossTarget + c.netTarget) / 2.0 else Max(c.netTarget, 0.0)
  }

  function ShortRequirement(c: Constraints): real {
    if c.grossEquality then (c.grossTarget - c.netTarget) / 2.0 else Max(-c.netTarget, 0.0)
  }

  ghost function MinimumOneWay(p: Problem, c: Constraints): real {
    var grossMove := if c.grossEquality then Abs(c.grossTarget - Gross(p.wPrev)) else Max(0.0, Gross(p.wPrev) - c.grossTarget);
    var netMove := Abs(c.netTarget - Sum(p.wPrev));
    0.5 * (ExitsTwoWay(p) + Max(grossMove, netMove))
  }

  function Reach(p: Problem, c: Constraints): (v: Vector)
    requires p.tradeCaps.Some? && |p.tradeCaps.value| == |p.wPrev|
    ensures |v| == |p.wPrev|
  {
    seq(|p.wPrev|, i requires 0 <= i < |p.wPrev| =>
      var reach := p.tradeCaps.value[i] + Abs(p.wPrev[i]);
      if c.maxPosition.Some? then Min(reach, c.maxPosition.value) else reach)
  }

  predicate GroupsTooTight(groups: Groups, limit: Option<real>, c: Constraints) {
    limit.Some? && groups != map[] && Abs(c.netTarget) > Times(limit.value, |groups.Keys| as real) + c.tolerance
  }

  /** When a conflict is reported. */
  ghost predicate Detected(p: Problem, c: Constraints, k: Conflict)
    requires ValidProblem(p)
  {
    match k
    case LongCapacity =>
      c.maxPosition.Some? && Times(c.maxPosition.value, p.n as real) < LongRequirement(c) - c.tolerance
    case NoShortableName =>
      ShortRequirement(c) > c.tolerance && CountTrue(p.shortable) == 0
    case ShortCapacity =>
      c.maxPosition.Some? && !(ShortRequirement(c) > c.tolerance && CountTrue(p.shortable) == 0)
      && Times(c.maxPosition.value, CountTrue(p.shortable) as real) < ShortRequirement(c) - c.tolerance
    case TurnoverTooTight =>
      c.turnoverLimit.Some? && c.turnoverLimit.value < MinimumOneWay(p, c) - c.tolerance
    case ParticipationTooTight =>
      p.tradeCaps.Some? && c.grossEquality && Sum(Reach(p, c)) < c.grossTarget - c.tolerance
    case SectorCapacity => GroupsTooTight(p.sectors, c.sectorLimit, c)
    case CountryCapacity => GroupsTooTight(p.countries, c.countryLimit, c)
  }

  // ---------------------------------------------------------------- refusals are sound

  /** The sides a feasible book must carry. */
  lemma SidesCarryTargets(p: Problem, c: Constraints, w: Vector)
    requires ValidProblem(p) && Feasible(p, c, w)
    ensures Sum(Longs(w)) >= LongRequirement(c) && Sum(Shorts(w)) >= ShortRequirement(c)
  {
    hide GroupsMeet, Dot, Sum, OneWayTurnover;
    Sides(w);
    SideNonNegative(Longs(w));
    SideNonNegative(Shorts(w));
  }

  lemma LongCapacitySound(p: Problem, c: Constraints, w: Vector)
    requires ValidProblem(p) && ValidConstraints(c) && Feasible(p, c, w) && c.maxPosition.Some?
    ensures Sum(Longs(w)) <= Times(c.maxPosition.value, p.n as real)
  {
    hide GroupsMeet, Dot, Sum, OneWayTurnover, Gross;
    var all := seq(p.n, _ => true);
    CappedSum(Longs(w), all, c.maxPosition.value);
    AllTrue(p.n);
  }

  lemma ShortsVanish(p: Problem, c: Constraints, w: Vector)
    requires ValidProblem(p) && Feasible(p, c, w) && CountTrue(p.shortable) == 0
    ensures Sum(Shorts(w)) <= 0.0
  {
    hide GroupsMeet, Dot, Sum, OneWayTurnover, Gross;
    NoneTrue(p.shortable);
    CappedSum(Shorts(w), p.shortable, 0.0);
    assert Times(0.0, 0.0) == 0.0;
  }

  lemma {:induction false} NoneTrue(s: seq<bool>)
    requires CountTrue(s) == 0
    ensures forall i :: 0 <= i < |s| ==> !s[i]
    decreases |s|
  {
    if s != [] {
      NoneTrue(s[..|s| - 1]);
    }
  }

  lemma ShortCapacitySound(p: Problem, c: Constraints, w: Vector)
    requires ValidProblem(p) && ValidConstraints(c) && Feasible(p, c, w) && c.maxPosition.Some?
    ensures Sum(Shorts(w)) <= Times(c.maxPosition.value, CountTrue(p.shortable) as real)
  {
    hide GroupsMeet, Dot, Sum, OneWayTurnover, Gross;
    CappedSum(Shorts(w), p.shortable, c.maxPosition.value);
  }

  lemma TurnoverSound(p: Problem, c: Constraints, w: Vector)
    requires ValidProblem(p) && Feasible(p, c, w) && c.turnoverLimit.Some?
    ensures MinimumOneWay(p, c) <= c.turnoverLimit.value
  {
    hide GroupsMeet, Dot, Sum, Gross, ExitsTwoWay;
    TradeDistance(w, p.wPrev);
    GrossNonNegative(Minus(w, p.wPrev));
  }

  lemma GrossNonNegative(w: Vector)
    ensures Gross(w) >= 0.0
  {
    SideNonNegative(AbsAll(w));
  }

  lemma ParticipationSound(p: Problem, c: Constraints, w: Vector)
    requires ValidProblem(p) && Feasible(p, c, w) && p.tradeCaps.Some? && c.grossEquality
    ensures Sum(Reach(p, c)) >= c.grossTarget
  {
    hide GroupsMeet, Dot, Sum, OneWayTurnover;
    SumMonotone(AbsAll(w), Reach(p, c));
  }

  lemma GroupsSound(groups: Groups, labels: seq<string>, limit: real, net: real, w: Vector)
    requires |labels| == |w| && IsGrouping(groups, labels)
    requires GroupsMeet(groups, Some(limit), w, 0.0)
    requires Sum(w) == net
    ensures Abs(net) <= Times(limit, |groups.Keys| as real)
  {
    hide Sum, Dot, Times;
    var nets := NetByGroup(labels, w);
    forall g | g in nets ensures Abs(nets[g]) <= limit {
      assert g in groups && groups[g] == Indicator(labels, g);
    }
    BoundedMapSum(nets, limit);
    GroupsPartition(labels, w);
    assert nets.Keys == groups.Keys;
  }

  lemma GroupConflictSound(groups: Groups, limit: Option<real>, p: Problem, c: Constraints, w: Vector)
    requires groups != map[] ==> exists labels :: |labels| == p.n && IsGrouping(groups, labels)
    requires |w| == p.n && Sum(w) == c.netTarget && GroupsMeet(groups, limit, w, 0.0) && c.tolerance > 0.0
    ensures !GroupsTooTight(groups, limit, c)
  {
    hide Sum, IsGrouping, GroupsMeet, Times;
    if limit.Some? && groups != map[] {
      var labels :| |labels| == p.n && IsGrouping(groups, labels);
      GroupsSound(groups, labels, limit.value, c.netTarget, w);
    }
  }

  /** Whatever conflict is detected, no weight vector satisfies the constraints together. */
  lemma RefusalIsSound(p: Problem, c: Constraints, k: Conflict, w: Vector)
    requires ValidProblem(p) && ValidConstraints(c)
    requires Detected(p, c, k)
    ensures !Feasible(p, c, w)
  {
    hide Times, Sum, MinimumOneWay, GroupsTooTight, GroupsMeet, LongRequirement, ShortRequirement, ValidProblem, OneWayTurnover, Dot, Gross;
    if Feasible(p, c, w) {
      SidesCarryTargets(p, c, w);
      NetIsTarget(p, c, w);
      match k
      case LongCapacity => LongCapacitySound(p, c, w); assert false;
      case NoShortableName => ShortsVanish(p, c, w); assert false;
      case ShortCapacity => ShortCapacitySound(p, c, w); assert false;
      case TurnoverTooTight => TurnoverSound(p, c, w); assert false;
      case ParticipationTooTight => ParticipationSound(p, c, w); assert false;
      case SectorCapacity => GroupingOf(p); GroupConflictSound(p.sectors, c.sectorLimit, p, c, w); assert false;
      case CountryCapacity => GroupingOf(p); GroupConflictSound(p.countries, c.countryLimit, p, c, w); assert false;
    }
  }

  lemma NetIsTarget(p: Problem, c: Constraints, w: Vector)
    requires ValidProblem(p) && Feasible(p, c, w)
    ensures Sum(w) == c.netTarget
  {
    hide GroupsMeet, Dot, Sum, OneWayTurnover, Gross;
  }

  lemma GroupingOf(p: Problem)
    requires ValidProblem(p)
    ensures p.sectors != map[] ==> exists labels :: |labels| == p.n && IsGrouping(p.sectors, labels)
    ensures p.countries != map[] ==> exists labels :: |labels| == p.n && IsGrouping(p.countries, labels)
  {
  }

  /** Position caps and borrow availability against the sides the targets need. */
  method CapacityConflicts(p: Problem, c: Constraints) returns (conflicts: seq<Conflict>)
    requires ValidProblem(p)
    ensures forall k :: k in conflicts <==>
              (k == LongCapacity || k == NoShortableName || k == ShortCapacity) && Detected(p, c, k)
  {
    hide Times, ValidProblem, LongRequirement, ShortRequirement, CountTrue;
    conflicts := [];
    var nShortable := CountTrue(p.shortable);
    var longReq, shortReq := LongRequirement(c), ShortRequirement(c);
    if c.maxPosition.Some? && Times(c.maxPosition.value, p.n as real) < longReq - c.tolerance {
      conflicts := conflicts + [LongCapacity];
    }
    if shortReq > c.tolerance && nShortable == 0 {
      conflicts := conflicts + [NoShortableName];
    } else if c.maxPosition.Some? && Times(c.maxPosition.value, nShortable as real) < shortReq - c.tolerance {
      conflicts := conflicts + [ShortCapacity];
    }
  }

  /** Turnover and participation limits against the drifted book. */
  method TradeConflicts(p: Problem, c: Constraints) returns (conflicts: seq<Conflict>)
    requires ValidProblem(p)
    ensures forall k :: k in conflicts <==>
              (k == TurnoverTooTight || k == ParticipationTooTight) && Detected(p, c, k)
  {
    hide Sum, ValidProblem, MapSum, Gross;
    conflicts := [];
    if c.turnoverLimit.Some? {
      var exits := SumValues(map k | k in p.exits :: Abs(p.exits[k]));
      var prevGross, prevNet := Gross(p.wPrev), Sum(p.wPrev);
      var grossMove := if c.grossEquality then Abs(c.grossTarget - prevGross) else Max(0.0, prevGross - c.grossTarget);
      var minOneWay := 0.5 * (exits + Max(grossMove, Abs(c.netTarget - prevNet)));
      if c.turnoverLimit.value < minOneWay - c.tolerance {
        conflicts := conflicts + [TurnoverTooTight];
      }
    }
    if p.tradeCaps.Some? && c.grossEquality {
      CapsAligned(p);
      if Sum(Reach(p, c)) < c.grossTarget - c.tolerance {
        conflicts := conflicts + [ParticipationTooTight];
      }
    }
  }

  /** The pre-solve checks. Whenever anything is reported, the constraint set has no solution at all. */
  method StaticConflicts(p: Problem, c: Constraints) returns (conflicts: seq<Conflict>)
    requires ValidProblem(p) && ValidConstraints(c)
    ensures forall k :: k in conflicts <==> Detected(p, c, k)
    ensures conflicts != [] ==> forall w :: !Feasible(p, c, w)
  {
    hide ValidProblem, Feasible, ValidConstraints;
    var capacity := CapacityConflicts(p, c);
    var trades := TradeConflicts(p, c);
    var sectors := if GroupsTooTight(p.sectors, c.sectorLimit, c) then [SectorCapacity] else [];
    var countries := if GroupsTooTight(p.countries, c.countryLimit, c) then [CountryCapacity] else [];
    conflicts := capacity + trades + sectors + countries;
    AllDetected(p, c, capacity, trades, sectors, countries);
    if conflicts != [] {
      assert Detected(p, c, conflicts[0]);
      forall w ensures !Feasible(p, c, w) {
        RefusalIsSound(p, c, conflicts[0], w);
      }
    }
  }

  lemma AllDetected(p: Problem, c: Constraints, a: seq<Conflict>, b: seq<Conflict>, d: seq<Conflict>, e: seq<Conflict>)
    requires ValidProblem(p)
    requires forall k :: k in a <==> (k == LongCapacity || k == NoShortableName || k == ShortCapacity) && Detected(p, c, k)
    requires forall k :: k in b <==> (k == TurnoverTooTight || k == ParticipationTooTight) && Detected(p, c, k)
    requires forall k :: k in d <==> k == SectorCapacity && GroupsTooTight(p.sectors, c.sectorLimit, c)
    requires forall k :: k in e <==> k == CountryCapacity && GroupsTooTight(p.countries, c.countryLimit, c)
    ensures forall k :: k in a + b + d + e <==> Detected(p, c, k)
  {
    hide ValidProblem, Times, GroupsTooTight, Sum, MinimumOneWay, LongRequirement, ShortRequirement, CountTrue, Reach;
    forall k ensures k in a + b + d + e <==> Detected(p, c, k) {
      assert k in a + b + d + e <==> k in a || k in b || k in d || k in e;
    }
  }

  lemma CapsAligned(p: Problem)
    requires ValidProblem(p) && p.tradeCaps.Some?
    ensures |p.tradeCaps.value| == |p.wPrev|
  {
  }

  // ---------------------------------------------------------------- how far the checks reach

  /** A problem with no previous book, attributes or groups. */
  function PlainProblem(n: nat, shortable: seq<bool>): Problem {
    Problem(n, seq(n, _ => 0.0), map[], shortable, None, map[], map[], None, None)
  }

  /** Only gross, net, position and borrow constraints are configured. */
  function PlainConstraints(gross: real, equality: bool, net: real, cap: Option<real>, tolerance: real): Constraints {
    Constraints(gross, equality, net, cap, None, None, None, None, None, tolerance)
  }

  /** The checks are not complete: one name cannot be long and short at once, and nothing reports it. */
  lemma EqualityChecksIncomplete(w: Vector)
    ensures var p, c := PlainProblem(1, [true]), PlainConstraints(2.0, true, 0.0, Some(2.0), 0.000001);
            && ValidProblem(p) && ValidConstraints(c)
            && (forall k :: !Detected(p, c, k))
            && !Feasible(p, c, w)
  {
    var p, c := PlainProblem(1, [true]), PlainConstraints(2.0, true, 0.0, Some(2.0), 0.000001);
    assert CountTrue(p.shortable[..0]) == 0;
    assert CountTrue(p.shortable) == 1;
    if Feasible(p, c, w) {
      var x := w[0];
      assert w == [x];
      assert AbsAll(w) == [Abs(x)];
      SumOne(x);
      SumOne(Abs(x));
      assert false;
    }
  }

  lemma SumTwo(v: Vector)
    requires |v| == 2
    ensures Sum(v) == v[0] + v[1]
  {
    assert v == [v[0]] + [v[1]];
    SumOne(v[0]);
    SumAppend([v[0]], v[1]);
  }

  /** The book that spreads the net target evenly over the names allowed to carry it. */
  function EvenBook(p: Problem, net: real): (w: Vector)
    requires |p.shortable| == p.n
    ensures |w| == p.n
  {
    if net >= 0.0 then seq(p.n, _ => if p.n == 0 then 0.0 else net / p.n as real)
    else
      var k := CountTrue(p.shortable);
      seq(p.n, i requires 0 <= i < p.n => if k > 0 && p.shortable[i] then net / k as real else 0.0)
  }

  lemma {:induction false} FlaggedSum(flags: seq<bool>, x: real)
    ensures Sum(Flagged(flags, x)) == Times(x, CountTrue(flags) as real)
    decreases |flags|
  {
    if flags == [] {
      TimesByZero(x);
    } else {
      hide Times;
      var n := |flags| - 1;
      FlaggedSum(flags[..n], x);
      assert Flagged(flags, x)[..n] == Flagged(flags[..n], x);
      OneMore(x, CountTrue(flags[..n]) as real);
    }
  }

  lemma Quotient(x: real, k: real)
    requires k > 0.0
    ensures Times(x / k, k) == x
    ensures x >= 0.0 ==> x / k >= 0.0
    ensures x <= 0.0 ==> x / k <= 0.0
  {
  }

  lemma PerName(x: real, k: real, cap: real, tol: real)
    requires k >= 1.0 && x >= 0.0 && tol >= 0.0 && Times(cap, k) >= x - tol
    ensures x / k <= cap + tol
  {
    hide Times;
    var d := cap + tol - x / k;
    Quotient(x, k);
    Expand(cap, tol, x / k, k);
    AtLeastOnce(tol, k);
    SignOfFactor(d, k);
  }

  lemma Expand(a: real, b: real, c: real, k: real)
    ensures Times(a + b - c, k) == Times(a, k) + Times(b, k) - Times(c, k)
  {
  }

  lemma AtLeastOnce(x: real, k: real)
    requires x >= 0.0 && k >= 1.0
    ensures Times(x, k) >= x
  {
    assert Times(x, k - 1.0) >= 0.0;
    assert Times(x, k - 1.0) == Times(x, k) - x;
  }

  lemma SignOfFactor(d: real, k: real)
    requires k > 0.0 && Times(d, k) >= 0.0
    ensures d >= 0.0
  {
    if d < 0.0 {
      ProductPositive(-d, k);
      NegativeFactor(d, k);
      assert false;
    }
  }

  lemma EvenLong(p: Problem, net: real)
    requires p.n > 0 && |p.shortable| == p.n && net >= 0.0
    ensures Sum(EvenBook(p, net)) == net && Gross(EvenBook(p, net)) == net
    ensures forall i :: 0 <= i < p.n ==> EvenBook(p, net)[i] == net / p.n as real >= 0.0
  {
    hide Times;
    var w, x := EvenBook(p, net), net / p.n as real;
    Quotient(net, p.n as real);
    SumConstant(w, x);
    assert p.n as real * x == Times(x, p.n as real) by { ProductIsTimes(x, p.n as real); }
    assert AbsAll(w) == w;
  }

  lemma ProductIsTimes(x: real, y: real)
    ensures y * x == Times(x, y)
  {
  }

  function Flagged(flags: seq<bool>, x: real): (v: Vector)
    ensures |v| == |flags|
  {
    seq(|flags|, i requires 0 <= i < |flags| => if flags[i] then x else 0.0)
  }

  lemma EvenShort(p: Problem, net: real)
    requires p.n > 0 && |p.shortable| == p.n && net < 0.0 && CountTrue(p.shortable) > 0
    ensures Sum(EvenBook(p, net)) == net && Gross(EvenBook(p, net)) == -net
    ensures forall i :: 0 <= i < p.n ==>
              EvenBook(p, net)[i] == if p.shortable[i] then -(-net / CountTrue(p.shortable) as real) else 0.0
  {
    hide Times, Sum;
    var k := CountTrue(p.shortable) as real;
    var x := net / k;
    Quotient(net, k);
    FlaggedSum(p.shortable, x);
    FlaggedSum(p.shortable, -x);
    assert EvenBook(p, net) == Flagged(p.shortable, x);
    assert AbsAll(EvenBook(p, net)) == Flagged(p.shortable, -x) by { AbsFlagged(p.shortable, x); }
    NegativeFactor(x, k);
    NegatedQuotient(net, k);
  }

  lemma AbsFlagged(flags: seq<bool>, x: real)
    requires x <= 0.0
    ensures AbsAll(Flagged(flags, x)) == Flagged(flags, -x)
  {
  }

  lemma NegatedQuotient(x: real, k: real)
    requires k > 0.0
    ensures x / k == -(-x / k)
  {
  }

  /** With gross an upper bound and only position and borrow limits, silence means a book exists that passes
      the final verification. */
  lemma UpperBoundChecksComplete(n: nat, shortable: seq<bool>, gross: real, net: real, cap: Option<real>, tolerance: real)
    requires n > 0 && |shortable| == n
    requires ValidConstraints(PlainConstraints(gross, false, net, cap, tolerance))
    requires forall k :: !Detected(PlainProblem(n, shortable), PlainConstraints(gross, false, net, cap, tolerance), k)
    ensures exists w :: Meets(PlainProblem(n, shortable), PlainConstraints(gross, false, net, cap, tolerance), w, tolerance)
  {
    hide Times, Sum, CountTrue, Gross, EvenBook, Meets;
    var p, c := PlainProblem(n, shortable), PlainConstraints(gross, false, net, cap, tolerance);
    assert !Detected(p, c, LongCapacity) && !Detected(p, c, NoShortableName) && !Detected(p, c, ShortCapacity);
    if net >= 0.0 {
      LongBookMeets(p, c);
    } else if CountTrue(shortable) == 0 {
      FlatBookMeets(p, c);
    } else {
      ShortBookMeets(p, c);
    }
    assert Meets(p, c, EvenBook(p, net), tolerance);
  }

  /** A plain problem under plain constraints with gross an upper bound. */
  predicate PlainUpper(p: Problem, c: Constraints) {
    && p.n > 0 && p == PlainProblem(p.n, p.shortable) && |p.shortable| == p.n && ValidConstraints(c)
    && c == PlainConstraints(c.grossTarget, false, c.netTarget, c.maxPosition, c.tolerance)
  }

  lemma LongBookMeets(p: Problem, c: Constraints)
    requires PlainUpper(p, c) && c.netTarget >= 0.0
    requires c.maxPosition.Some? ==> Times(c.maxPosition.value, p.n as real) >= c.netTarget - c.tolerance
    ensures Meets(p, c, EvenBook(p, c.netTarget), c.tolerance)
  {
    hide Times, Sum, Gross, EvenBook;
    EvenLong(p, c.netTarget);
    if c.maxPosition.Some? {
      PerName(c.netTarget, p.n as real, c.maxPosition.value, c.tolerance);
    }
  }

  lemma FlatBookMeets(p: Problem, c: Constraints)
    requires PlainUpper(p, c) && -c.tolerance <= c.netTarget < 0.0 && CountTrue(p.shortable) == 0
    ensures Meets(p, c, EvenBook(p, c.netTarget), c.tolerance)
  {
    hide Times, Sum;
    var w := EvenBook(p, c.netTarget);
    SumConstant(w, 0.0);
    SumConstant(AbsAll(w), 0.0);
  }

  lemma ShortBookMeets(p: Problem, c: Constraints)
    requires PlainUpper(p, c) && c.netTarget < 0.0 && CountTrue(p.shortable) > 0
    requires c.maxPosition.Some? ==> Times(c.maxPosition.value, CountTrue(p.shortable) as real) >= -c.netTarget - c.tolerance
    ensures Meets(p, c, EvenBook(p, c.netTarget), c.tolerance)
  {
    hide Times, Sum, Gross, EvenBook, CountTrue;
    var k := CountTrue(p.shortable);
    EvenShort(p, c.netTarget);
    Quotient(-c.netTarget, k as real);
    if c.maxPosition.Some? {
      PerName(-c.netTarget, k as real, c.maxPosition.value, c.tolerance);
    }
  }

  lemma {:induction false} NoneTrueBelow(s: seq<bool>)
    ensures forall i :: 0 <= i < |s| && s[i] ==> CountTrue(s) > 0
    decreases |s|
  {
    if s != [] {
      NoneTrueBelow(s[..|s| - 1]);
    }
  }

  // ---------------------------------------------------------------- after the solve

  /** A bound on a square root is reported by its radicand. */
  datatype ReportKind = Equality | UpperBound | RootBound

  /** One enforced constraint on the final book. */
  datatype ConstraintReport = ConstraintReport(name: string, kind: ReportKind, value: real, bound: real)

  /** Equalities hold on both sides of the band, upper bounds on one. */
  predicate Holds(r: ConstraintReport, tolerance: real) {
    var slack := r.bound - r.value;
    match r.kind
    case Equality => Abs(slack) <= tolerance
    case UpperBound => slack >= -tolerance
    case RootBound => r.value <= Times(r.bound + tolerance, r.bound + tolerance)
  }

  predicate AllHold(reports: seq<ConstraintReport>, tolerance: real) {
    forall i :: 0 <= i < |reports| ==> Holds(reports[i], tolerance)
  }

  lemma AllHoldAppend(a: seq<ConstraintReport>, b: seq<ConstraintReport>, tolerance: real)
    ensures AllHold(a + b, tolerance) <==> AllHold(a, tolerance) && AllHold(b, tolerance)
  {
    hide Holds;
    if AllHold(a + b, tolerance) {
      forall i | 0 <= i < |a| ensures Holds(a[i], tolerance) { assert (a + b)[i] == a[i]; }
      forall i | 0 <= i < |b| ensures Holds(b[i], tolerance) { assert (a + b)[|a| + i] == b[i]; }
    }
  }

  function Largest(v: Vector): real
    requires v != []
  {
    if |v| == 1 then v[0] else Max(Largest(v[..|v| - 1]), v[|v| - 1])
  }

  lemma {:induction false} LargestBounds(v: Vector, b: real)
    requires v != []
    ensures Largest(v) <= b <==> forall i :: 0 <= i < |v| ==> v[i] <= b
    decreases |v|
  {
    if |v| > 1 {
      LargestBounds(v[..|v| - 1], b);
    }
  }

  /** How far short each hard-to-borrow name is held. */
  function BannedShorts(shortable: seq<bool>, w: Vector): Vector
    requires |shortable| == |w|
  {
    if w == [] then [] else
    var n := |w| - 1;
    BannedShorts(shortable[..n], w[..n]) + if shortable[n] then [] else [-w[n]]
  }

  lemma {:induction false} BannedShortsBound(shortable: seq<bool>, w: Vector, b: real)
    requires |shortable| == |w|
    ensures (forall i :: 0 <= i < |BannedShorts(shortable, w)| ==> BannedShorts(shortable, w)[i] <= b)
       <==> forall i :: 0 <= i < |w| && !shortable[i] ==> w[i] >= -b
    decreases |w|
  {
    if w != [] {
      var n := |w| - 1;
      var front, all := BannedShorts(shortable[..n], w[..n]), BannedShorts(shortable, w);
      BannedShortsBound(shortable[..n], w[..n], b);
      assert forall i :: 0 <= i < |front| ==> all[i] == front[i];
      assert !shortable[n] ==> all[|front|] == -w[n];
      assert forall i :: 0 <= i < n ==> shortable[..n][i] == shortable[i] && w[..n][i] == w[i];
    }
  }

  /** One report per group, in ascending name order. */
  method GroupReports(prefix: string, groups: Groups, limit: Option<real>, w: Vector, tolerance: real)
    returns (reports: seq<ConstraintReport>)
    requires forall g :: g in groups ==> |groups[g]| == |w|
    ensures AllHold(reports, tolerance) <==> GroupsMeet(groups, limit, w, tolerance)
  {
    hide Holds, Dot, IdLeq, AllHold, GroupsMeetIn;
    reports := [];
    if limit.None? {
      NoReports(tolerance);
      return;
    }
    NoGroupYet(groups, limit.value, w, tolerance);
    var todo, done := groups.Keys, {};
    while todo != {}
      invariant todo !! done && todo + done == groups.Keys
      invariant AllHold(reports, tolerance) <==> GroupsMeetIn(groups, done, limit.value, w, tolerance)
      decreases |todo|
    {
      var g := Least(todo);
      var report := ConstraintReport(prefix + ":" + g, UpperBound, Abs(Dot(groups[g], w)), limit.value);
      AllHoldAppend(reports, [report], tolerance);
      HoldsAlone(report, tolerance);
      OneMoreGroup(groups, done, g, limit.value, w, tolerance);
      reports := reports + [report];
      todo := todo - {g};
      done := done + {g};
    }
    assert done == groups.Keys;
    AllGroups(groups, limit.value, w, tolerance);
  }

  ghost predicate GroupsMeetIn(groups: Groups, done: set<string>, limit: real, w: Vector, band: real)
    requires done <= groups.Keys && forall g :: g in groups ==> |groups[g]| == |w|
  {
    forall g :: g in done ==> Abs(Dot(groups[g], w)) <= limit + band
  }

  lemma NoGroupYet(groups: Groups, limit: real, w: Vector, band: real)
    requires forall g :: g in groups ==> |groups[g]| == |w|
    ensures GroupsMeetIn(groups, {}, limit, w, band) && AllHold([], band)
  {
  }

  lemma OneMoreGroup(groups: Groups, done: set<string>, g: string, limit: real, w: Vector, band: real)
    requires done <= groups.Keys && g in groups && forall g :: g in groups ==> |groups[g]| == |w|
    ensures GroupsMeetIn(groups, done + {g}, limit, w, band)
       <==> GroupsMeetIn(groups, done, limit, w, band) && Abs(Dot(groups[g], w)) <= limit + band
  {
    hide Dot;
  }

  lemma AllGroups(groups: Groups, limit: real, w: Vector, band: real)
    requires forall g :: g in groups ==> |groups[g]| == |w|
    ensures GroupsMeetIn(groups, groups.Keys, limit, w, band) <==> GroupsMeet(groups, Some(limit), w, band)
  {
    hide Dot;
  }

  lemma HoldsAlone(r: ConstraintReport, tolerance: real)
    ensures AllHold([r], tolerance) <==> Holds(r, tolerance)
    ensures r.kind.UpperBound? ==> (Holds(r, tolerance) <==> r.value <= r.bound + tolerance)
  {
    assert [r][0] == r;
  }

  /** Position, beta, trade and borrow limits on single names. */
  ghost predicate NamesMeet(p: Problem, c: Constraints, w: Vector, band: real)
    requires ValidProblem(p) && |w| == p.n
  {
    && (c.maxPosition.Some? ==> forall i :: 0 <= i < p.n ==> Abs(w[i]) <= c.maxPosition.value + band)
    && (c.betaLimit.Some? && p.betas.Some? ==> Abs(Dot(p.betas.value, w)) <= c.betaLimit.value + band)
    && (p.tradeCaps.Some? ==> forall i :: 0 <= i < p.n ==> Abs(w[i] - p.wPrev[i]) <= p.tradeCaps.value[i] + band)
    && (forall i :: 0 <= i < p.n && !p.shortable[i] ==> w[i] >= -band)
  }

  /** Gross, net and turnover. */
  ghost predicate TotalsMeet(p: Problem, c: Constraints, w: Vector, band: real)
    requires ValidProblem(p) && |w| == p.n
  {
    && Gross(w) <= c.grossTarget + band
    && (c.grossEquality ==> Gross(w) >= c.grossTarget - band)
    && Abs(c.netTarget - Sum(w)) <= band
    && (c.turnoverLimit.Some? ==> OneWayTurnover(p, w) <= c.turnoverLimit.value + band)
  }

  method TotalReports(p: Problem, c: Constraints, w: Vector) returns (reports: seq<ConstraintReport>)
    requires ValidProblem(p) && |w| == p.n
    ensures AllHold(reports, c.tolerance) <==> TotalsMeet(p, c, w, c.tolerance)
  {
    hide Gross, Sum, MapSum, ValidProblem;
    AlignedWeights(p);
    reports := [ConstraintReport("gross", if c.grossEquality then Equality else UpperBound, Gross(w), c.grossTarget),
                ConstraintReport("net", Equality, Sum(w), c.netTarget)];
    assert AllHold(reports, c.tolerance) <==> Holds(reports[0], c.tolerance) && Holds(reports[1], c.tolerance);
    if c.turnoverLimit.Some? {
      var exits := SumValues(map k | k in p.exits :: Abs(p.exits[k]));
      var oneWay := 0.5 * (Gross(Minus(w, p.wPrev)) + exits);
      var report := ConstraintReport("turnover_one_way", UpperBound, oneWay, c.turnoverLimit.value);
      AllHoldAppend(reports, [report], c.tolerance);
      HoldsAlone(report, c.tolerance);
      reports := reports + [report];
    }
  }

  lemma AlignedWeights(p: Problem)
    requires ValidProblem(p)
    ensures p.n > 0 && |p.wPrev| == p.n && |p.shortable| == p.n
    ensures p.betas.Some? ==> |p.betas.value| == p.n
    ensures p.tradeCaps.Some? ==> |p.tradeCaps.value| == p.n
  {
  }

  method NameReports(p: Problem, c: Constraints, w: Vector) returns (reports: seq<ConstraintReport>)
    requires ValidProblem(p) && |w| == p.n && c.tolerance > 0.0
    ensures AllHold(reports, c.tolerance) <==> NamesMeet(p, c, w, c.tolerance)
  {
    hide Holds, AllHold, Dot, Largest, ValidProblem;
    AlignedWeights(p);
    reports := [];
    NoReports(c.tolerance);
    if c.maxPosition.Some? {
      var report := ConstraintReport("max_position_weight", UpperBound, Largest(AbsAll(w)), c.maxPosition.value);
      LargestBounds(AbsAll(w), c.maxPosition.value + c.tolerance);
      AllHoldAppend(reports, [report], c.tolerance);
      HoldsAlone(report, c.tolerance);
      reports := reports + [report];
    }
    assert AllHold(reports, c.tolerance)
      <==> (c.maxPosition.Some? ==> forall i :: 0 <= i < p.n ==> Abs(w[i]) <= c.maxPosition.value + c.tolerance) by {
      assert forall i :: 0 <= i < p.n ==> AbsAll(w)[i] == Abs(w[i]);
    }
    var front := reports;
    if c.betaLimit.Some? && p.betas.Some? {
      var report := ConstraintReport("beta", UpperBound, Abs(Dot(p.betas.value, w)), c.betaLimit.value);
      AllHoldAppend(reports, [report], c.tolerance);
      HoldsAlone(report, c.tolerance);
      reports := reports + [report];
    }
    var trades := TradeReports(p, c, w);
    AllHoldAppend(reports, trades, c.tolerance);
    reports := reports + trades;
  }

  lemma NoReports(tolerance: real)
    ensures AllHold([], tolerance)
  {
  }

  method TradeReports(p: Problem, c: Constraints, w: Vector) returns (reports: seq<ConstraintReport>)
    requires ValidProblem(p) && |w| == p.n && c.tolerance > 0.0
    ensures AllHold(reports, c.tolerance) <==>
              && (p.tradeCaps.Some? ==> forall i :: 0 <= i < p.n ==>
                    Abs(w[i] - p.wPrev[i]) <= p.tradeCaps.value[i] + c.tolerance)
              && (forall i :: 0 <= i < p.n && !p.shortable[i] ==> w[i] >= -c.tolerance)
  {
    hide Holds, AllHold, Largest, ValidProblem, BannedShorts;
    AlignedWeights(p);
    NoReports(c.tolerance);
    reports := [];
    var banned := BannedShorts(p.shortable, w);
    BannedShortsBound(p.shortable, w, c.tolerance);
    if banned != [] {
      var worst := ConstraintReport("hard_to_borrow_short_exclusion", UpperBound, Largest(banned), 0.0);
      LargestBounds(banned, c.tolerance);
      HoldsAlone(worst, c.tolerance);
      reports := [worst];
    }
    if p.tradeCaps.Some? {
      var excess := Minus(AbsAll(Minus(w, p.wPrev)), p.tradeCaps.value);
      var report := ConstraintReport("adv_participation", UpperBound, Largest(excess), 0.0);
      LargestBounds(excess, c.tolerance);
      assert forall i :: 0 <= i < p.n ==> excess[i] == Abs(w[i] - p.wPrev[i]) - p.tradeCaps.value[i];
      HoldsAlone(report, c.tolerance);
      AllHoldAppend([report], reports, c.tolerance);
      reports := [report] + reports;
    }
  }

  method VolatilityReport(p: Problem, c: Constraints, w: Vector) returns (reports: seq<ConstraintReport>)
    requires ValidProblem(p) && |w| == p.n
    ensures AllHold(reports, c.tolerance) <==> VolatilityMeets(p, c, w, c.tolerance)
  {
    hide Variance, Times, IsGrouping;
    reports := [];
    if c.volatility.Some? && p.covariance.Some? {
      var cap := c.volatility.value;
      reports := [ConstraintReport("target_volatility", RootBound, Times(cap.periods, Variance(p.covariance.value, w)), cap.target)];
      assert AllHold(reports, c.tolerance) <==> Holds(reports[0], c.tolerance);
    }
  }

  /**
   * The annualized variance is not negative, so it has a square root to report, and the report
   * holds exactly when that root is at most the target plus the tolerance.
   */
  lemma VolatilityIsARoot(p: Problem, c: Constraints, w: Vector, root: real, band: real)
    requires ValidProblem(p) && ValidConstraints(c) && |w| == p.n && band >= 0.0
    requires c.volatility.Some? && p.covariance.Some?
    ensures Times(c.volatility.value.periods, Variance(p.covariance.value, w)) >= 0.0
    ensures root >= 0.0 && Times(root, root) == Times(c.volatility.value.periods, Variance(p.covariance.value, w))
            ==> (root <= c.volatility.value.target + band <==> VolatilityMeets(p, c, w, band))
  {
    hide Variance, IsGrouping, Times;
    var cap := c.volatility.value;
    VarianceNonNegative(p, w);
    NonNegative(cap.periods, Variance(p.covariance.value, w));
    if root >= 0.0 {
      SquaresOrdered(root, cap.target + band);
    }
  }

  lemma VarianceNonNegative(p: Problem, w: Vector)
    requires ValidProblem(p) && |w| == p.n && p.covariance.Some?
    ensures IsSquare(p.covariance.value, |w|) && Variance(p.covariance.value, w) >= 0.0
  {
    hide Variance, IsGrouping;
  }

  lemma SquaresOrdered(x: real, y: real)
    requires x >= 0.0 && y >= 0.0
    ensures x <= y <==> Times(x, x) <= Times(y, y)
  {
    if x < y {
      ProductPositive(y - x, y + x);
    } else if y < x {
      ProductPositive(x - y, x + y);
    }
  }

  /** Independent verification of the final book: it is accepted exactly when every configured constraint is met
      within the tolerance. */
  method FinalChecks(p: Problem, c: Constraints, w: Vector) returns (accepted: bool, reports: seq<ConstraintReport>)
    requires ValidProblem(p) && ValidConstraints(c) && |w| == p.n
    ensures accepted <==> Meets(p, c, w, c.tolerance)
    ensures accepted <==> AllHold(reports, c.tolerance)
  {
    hide Gross, Sum, Dot, OneWayTurnover, AllHold, GroupsMeet, IsCovariance, IsGrouping, VolatilityMeets;
    GroupSizes(p);
    var totals := TotalReports(p, c, w);
    var names := NameReports(p, c, w);
    var sectors := GroupReports("sector_net", p.sectors, c.sectorLimit, w, c.tolerance);
    var countries := GroupReports("country_net", p.countries, c.countryLimit, w, c.tolerance);
    AllHoldAppend(totals, names, c.tolerance);
    AllHoldAppend(totals + names, sectors, c.tolerance);
    AllHoldAppend(totals + names + sectors, countries, c.tolerance);
    var volatility := VolatilityReport(p, c, w);
    AllHoldAppend(totals + names + sectors + countries, volatility, c.tolerance);
    reports := totals + names + sectors + countries + volatility;
    accepted := AllHold(reports, c.tolerance);
  }

  lemma GroupSizes(p: Problem)
    requires ValidProblem(p)
    ensures forall g :: g in p.sectors ==> |p.sectors[g]| == p.n
    ensures forall g :: g in p.countries ==> |p.countries[g]| == p.n
  {
    if p.sectors != map[] {
      var labels :| |labels| == p.n && IsGrouping(p.sectors, labels);
    }
    if p.countries != map[] {
      var labels :| |labels| == p.n && IsGrouping(p.countries, labels);
    }
  }

  // ---------------------------------------------------------------- washes

  function MinAll(u: Vector, v: Vector): (m: Vector)
    requires |u| == |v|
    ensures |m| == |u|
  {
    seq(|u|, i requires 0 <= i < |u| => Min(u[i], v[i]))
  }

  function Plus(a: Vector, b: Vector): (v: Vector)
    requires |a| == |b|
    ensures |v| == |a|
  {
    seq(|a|, i requires 0 <= i < |a| => a[i] + b[i])
  }

  lemma WashEntry(u: Vector, v: Vector, i: nat)
    requires i < |u| == |v|
    ensures AbsAll(Minus(u, v))[i] == Plus(u, v)[i] - 2.0 * MinAll(u, v)[i]
  {
    assert AbsAll(Minus(u, v))[i] == Abs(u[i] - v[i]);
  }

  /** The gross the solver sees exceeds the genuine gross by exactly twice the offsetting mass. */
  lemma WashMass(u: Vector, v: Vector)
    requires |u| == |v|
    ensures Gross(Minus(u, v)) == Sum(Plus(u, v)) - 2.0 * Sum(MinAll(u, v))
  {
    hide Sum;
    forall i | 0 <= i < |u| ensures AbsAll(Minus(u, v))[i] == Plus(u, v)[i] + -2.0 * MinAll(u, v)[i] {
      WashEntry(u, v, i);
    }
    SumLinear(Plus(u, v), -2.0, MinAll(u, v), AbsAll(Minus(u, v)));
  }

  // ---------------------------------------------------------------- the split program

  function SideBound(c: Constraints): real {
    if c.maxPosition.Some? then Min(c.maxPosition.value, c.grossTarget) else c.grossTarget
  }

  /** The bounds and linear rows handed to the solver: w = u - v, and t at least the traded weight. */
  ghost predicate SplitRows(p: Problem, c: Constraints, u: Vector, v: Vector, t: Vector)
    requires ValidProblem(p)
  {
    && |u| == |v| == |t| == p.n
    && (forall i :: 0 <= i < p.n ==> 0.0 <= u[i] <= SideBound(c))
    && (forall i :: 0 <= i < p.n ==> 0.0 <= v[i] <= if p.shortable[i] then SideBound(c) else 0.0)
    && (p.tradeCaps.Some? ==> forall i :: 0 <= i < p.n ==> t[i] <= p.tradeCaps.value[i])
    && Sum(Minus(u, v)) == c.netTarget
    && (if c.grossEquality then Sum(Plus(u, v)) == c.grossTarget else Sum(Plus(u, v)) <= c.grossTarget)
    && (forall i :: 0 <= i < p.n ==> t[i] >= Abs(Minus(u, v)[i] - p.wPrev[i]))
    && (c.turnoverLimit.Some? ==> 0.5 * (Sum(t) + ExitsTwoWay(p)) <= c.turnoverLimit.value)
    && (c.betaLimit.Some? && p.betas.Some? ==> Abs(Dot(p.betas.value, Minus(u, v))) <= c.betaLimit.value)
    && GroupsMeet(p.sectors, c.sectorLimit, Minus(u, v), 0.0)
    && GroupsMeet(p.countries, c.countryLimit, Minus(u, v), 0.0)
    && VarianceMeets(p, c, Minus(u, v))
  }

  predicate VarianceMeets(p: Problem, c: Constraints, w: Vector) {
    c.volatility.Some? && p.covariance.Some? && IsSquare(p.covariance.value, |w|) ==>
      Variance(p.covariance.value, w) <= VarianceCap(c.volatility.value)
  }

  function VarianceCap(cap: VolatilityCap): real {
    if cap.periods == 0.0 then 0.0 else Times(cap.target, cap.target) / cap.periods
  }

  /** The row on the variance is the bound on the volatility. */
  lemma VarianceRow(p: Problem, c: Constraints, w: Vector)
    requires ValidConstraints(c)
    ensures VolatilityMeets(p, c, w, 0.0) <==> VarianceMeets(p, c, w)
  {
    hide Variance, Times;
    if c.volatility.Some? && p.covariance.Some? && IsSquare(p.covariance.value, |w|) {
      var cap := c.volatility.value;
      OverPeriods(Variance(p.covariance.value, w), Times(cap.target, cap.target), cap.periods);
      assert cap.target + 0.0 == cap.target;
    }
  }

  lemma OverPeriods(x: real, y: real, k: real)
    requires k > 0.0
    ensures Times(k, x) <= y <==> x <= y / k
  {
    hide Times;
    Quotient(y, k);
    Expand(y / k, 0.0, x, k);
    Commute(k, x);
    TimesByZero(k);
    Commute(0.0, k);
    if Times(k, x) <= y {
      SignOfFactor(y / k + 0.0 - x, k);
    } else if x <= y / k {
      NonNegative(y / k - x, k);
    }
  }

  /** Any solution of the split program meets every constraint, except that with gross as an equality the genuine
      gross falls short by twice the offsetting mass. */
  lemma SplitIsSound(p: Problem, c: Constraints, u: Vector, v: Vector, t: Vector)
    requires ValidProblem(p) && ValidConstraints(c) && SplitRows(p, c, u, v, t)
    ensures !c.grossEquality ==> Feasible(p, c, Minus(u, v))
    ensures c.grossEquality ==> (Feasible(p, c, Minus(u, v)) <==> Sum(MinAll(u, v)) == 0.0)
  {
    hide Sum, Dot, MapSum, IsCovariance, IsGrouping, VolatilityMeets, VarianceMeets;
    WashMass(u, v);
    SideNonNegative(MinAll(u, v));
    SplitTurnover(p, c, u, v, t);
    VarianceRow(p, c, Minus(u, v));
  }

  lemma SplitTurnover(p: Problem, c: Constraints, u: Vector, v: Vector, t: Vector)
    requires ValidProblem(p) && SplitRows(p, c, u, v, t)
    ensures c.turnoverLimit.Some? ==> OneWayTurnover(p, Minus(u, v)) <= c.turnoverLimit.value
  {
    hide Sum, Dot, MapSum, GroupsMeet;
    SumMonotone(AbsAll(Minus(Minus(u, v), p.wPrev)), t);
  }

  lemma {:induction false} EntryBelowGross(w: Vector, i: nat)
    requires i < |w|
    ensures Abs(w[i]) <= Gross(w)
    decreases |w|
  {
    var n := |w| - 1;
    assert AbsAll(w)[..n] == AbsAll(w[..n]);
    GrossNonNegative(w[..n]);
    if i < n {
      EntryBelowGross(w[..n], i);
    }
  }

  /** Every feasible book is a solution of the split program, with no offsetting mass. */
  lemma SplitIsComplete(p: Problem, c: Constraints, w: Vector)
    requires ValidProblem(p) && ValidConstraints(c) && Feasible(p, c, w)
    ensures SplitRows(p, c, Longs(w), Shorts(w), AbsAll(Minus(w, p.wPrev)))
    ensures Minus(Longs(w), Shorts(w)) == w && Sum(MinAll(Longs(w), Shorts(w))) == 0.0
  {
    hide Sum, Dot, MapSum, ValidProblem, VolatilityMeets, VarianceMeets;
    AlignedWeights(p);
    VarianceRow(p, c, w);
    assert Minus(Longs(w), Shorts(w)) == w;
    assert Plus(Longs(w), Shorts(w)) == AbsAll(w);
    SumConstant(MinAll(Longs(w), Shorts(w)), 0.0);
    forall i | 0 <= i < p.n ensures Abs(w[i]) <= c.grossTarget {
      EntryBelowGross(w, i);
    }
  }

  datatype SolveError = WashOnly | VerificationFailed

  function DropTiny(w: Vector, epsilon: real): (v: Vector)
    ensures |v| == |w|
  {
    seq(|w|, i requires 0 <= i < |w| => if Abs(w[i]) < epsilon then 0.0 else w[i])
  }

  /** Weights smaller than epsilon become zero and the others stay, so no name moves by epsilon. */
  lemma TinyDropped(w: Vector, epsilon: real)
    requires epsilon > 0.0
    ensures forall i :: 0 <= i < |w| ==>
              && Abs(DropTiny(w, epsilon)[i] - w[i]) < epsilon
              && (DropTiny(w, epsilon)[i] == 0.0 || (DropTiny(w, epsilon)[i] == w[i] && Abs(w[i]) >= epsilon))
              && (Abs(w[i]) >= epsilon ==> DropTiny(w, epsilon)[i] == w[i])
  {
  }

  /** What is done with the long and short parts a converged solver returns, whatever they are. */
  method AcceptSolution(p: Problem, c: Constraints, u: Vector, v: Vector, washTolerance: real, epsilon: real)
    returns (r: Result<Vector, SolveError>)
    requires ValidProblem(p) && ValidConstraints(c) && |u| == |v| == p.n && washTolerance > 0.0 && epsilon > 0.0
    ensures r.Success? ==> r.value == DropTiny(Minus(u, v), epsilon) && Meets(p, c, r.value, c.tolerance)
    ensures r.Success? ==> forall i :: 0 <= i < p.n ==>
              && Abs(r.value[i] - (u[i] - v[i])) < epsilon
              && (r.value[i] == 0.0 || (r.value[i] == u[i] - v[i] && Abs(r.value[i]) >= epsilon))
    ensures r == Failure(WashOnly)
       <==> c.grossEquality && Gross(Minus(u, v)) < c.grossTarget - c.tolerance
            && exists i :: 0 <= i < p.n && MinAll(u, v)[i] > washTolerance
    ensures r == Failure(WashOnly) ==>
              c.grossEquality && !Meets(p, c, Minus(u, v), c.tolerance)
              && 2.0 * Sum(MinAll(u, v)) > Sum(Plus(u, v)) - c.grossTarget + c.tolerance
    ensures r == Failure(VerificationFailed) ==> !Meets(p, c, DropTiny(Minus(u, v), epsilon), c.tolerance)
  {
    hide Sum, Dot, OneWayTurnover, Largest, GroupsMeet, AllHold;
    var weights := Minus(u, v);
    var overlap := Largest(MinAll(u, v));
    LargestBounds(MinAll(u, v), washTolerance);
    if c.grossEquality && overlap > washTolerance {
      if Gross(weights) < c.grossTarget - c.tolerance {
        WashMass(u, v);
        return Failure(WashOnly);
      }
    }
    TinyDropped(weights, epsilon);
    weights := DropTiny(weights, epsilon);
    var accepted, reports := FinalChecks(p, c, weights);
    r := if accepted then Success(weights) else Failure(VerificationFailed);
  }
}
