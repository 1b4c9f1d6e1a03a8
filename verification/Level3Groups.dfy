/** Exactly when position, borrow and group limits leave room for a book whose gross is an upper bound. */
module Level3Groups {
  import opened Sums
  import opened Wrappers
  import opened Level3
  import opened Level3Feasibility
  import opened Level3Caps
  import opened Level3Beta

  // ---------------------------------------------------------------- what a group can carry

  /** The members of a group that can carry the net target. */
  function Carriers(indicator: Vector, usable: seq<bool>): (flags: seq<bool>)
    requires |indicator| == |usable|
    ensures |flags| == |usable|
  {
    seq(|usable|, i requires 0 <= i < |usable| => indicator[i] == 1.0 && usable[i])
  }

  /** The most net that a group's carriers can hold between them, under the position cap and the group limit. */
  function Capacity(indicator: Vector, usable: seq<bool>, cap: Option<real>, limit: real): real
    requires |indicator| == |usable|
  {
    var count := CountTrue(Carriers(indicator, usable));
    if count == 0 then 0.0
    else if cap.Some? then Min(limit, Times(cap.value, count as real))
    else limit
  }

  /** Every name can be long, and some can be short. */
  function UsableFor(p: Problem, c: Constraints): (flags: seq<bool>)
    requires |p.shortable| == p.n
    ensures |flags| == p.n
  {
    if c.netTarget >= 0.0 then Everyone(p.n) else p.shortable
  }

  /** The book on the side of the net target. */
  function Towards(net: real, w: Vector): (v: Vector)
    ensures |v| == |w|
  {
    if net >= 0.0 then w else Negated(w)
  }

  // ---------------------------------------------------------------- the net of a group

  function Masked(indicator: Vector, v: Vector): (r: Vector)
    requires |indicator| == |v|
    ensures |r| == |v|
  {
    seq(|v|, i requires 0 <= i < |v| => if indicator[i] == 1.0 then v[i] else 0.0)
  }

  predicate IsIndicator(indicator: Vector) {
    forall i :: 0 <= i < |indicator| ==> indicator[i] == 1.0 || indicator[i] == 0.0
  }

  lemma {:induction false} DotIsMasked(indicator: Vector, v: Vector)
    requires |indicator| == |v| && IsIndicator(indicator)
    ensures Dot(indicator, v) == Sum(Masked(indicator, v))
    decreases |v|
  {
    if v != [] {
      var n := |v| - 1;
      DotIsMasked(indicator[..n], v[..n]);
      assert Masked(indicator, v)[..n] == Masked(indicator[..n], v[..n]);
      assert Times(1.0, v[n]) == v[n] && Times(0.0, v[n]) == 0.0;
    }
  }

  /** A group's net is within what its carriers can hold. */
  lemma WithinCapacity(indicator: Vector, usable: seq<bool>, cap: Option<real>, limit: real, v: Vector)
    requires |indicator| == |usable| == |v| && IsIndicator(indicator) && limit >= 0.0
    requires forall i :: 0 <= i < |v| && !usable[i] ==> v[i] <= 0.0
    requires cap.Some? ==> cap.value > 0.0 && forall i :: 0 <= i < |v| ==> v[i] <= cap.value
    requires Dot(indicator, v) <= limit
    ensures Dot(indicator, v) <= Capacity(indicator, usable, cap, limit)
  {
    hide Times, Sum, Dot, CountTrue;
    var flags := Carriers(indicator, usable);
    DotIsMasked(indicator, v);
    if CountTrue(flags) == 0 {
      NoneTrue(flags);
      CappedSum(Masked(indicator, v), flags, 0.0);
      TimesByZero(0.0);
    } else if cap.Some? {
      CappedSum(Masked(indicator, v), flags, cap.value);
    }
  }

  // ---------------------------------------------------------------- the fullest book

  /** What each carrier of a group holds when the group is full. */
  function ShareOf(indicator: Vector, usable: seq<bool>, cap: Option<real>, limit: real): real
    requires |indicator| == |usable|
  {
    Share(Capacity(indicator, usable, cap, limit), CountTrue(Carriers(indicator, usable)))
  }

  lemma ShareOfFacts(indicator: Vector, usable: seq<bool>, cap: Option<real>, limit: real)
    requires |indicator| == |usable| && limit >= 0.0 && (cap.Some? ==> cap.value > 0.0)
    ensures ShareOf(indicator, usable, cap, limit) >= 0.0
    ensures cap.Some? ==> ShareOf(indicator, usable, cap, limit) <= cap.value
    ensures Times(ShareOf(indicator, usable, cap, limit), CountTrue(Carriers(indicator, usable)) as real)
            == Capacity(indicator, usable, cap, limit)
    ensures 0.0 <= Capacity(indicator, usable, cap, limit) <= limit
  {
    hide Times, CountTrue;
    var k, full := CountTrue(Carriers(indicator, usable)), Capacity(indicator, usable, cap, limit);
    if k == 0 {
      TimesByZero(0.0);
    } else {
      if cap.Some? {
        NonNegative(cap.value, k as real);
        PerName(full, k as real, cap.value, 0.0);
      }
      Quotient(full, k as real);
    }
  }

  /** Every group full, spread evenly over its carriers. */
  function FullBook(labels: seq<string>, usable: seq<bool>, cap: Option<real>, limit: real): (v: Vector)
    requires |labels| == |usable|
    ensures |v| == |labels|
  {
    seq(|labels|, i requires 0 <= i < |labels| =>
      if usable[i] then ShareOf(Indicator(labels, labels[i]), usable, cap, limit) else 0.0)
  }

  lemma FullGroup(labels: seq<string>, usable: seq<bool>, cap: Option<real>, limit: real, g: string)
    requires |labels| == |usable| && limit >= 0.0 && (cap.Some? ==> cap.value > 0.0)
    ensures Dot(Indicator(labels, g), FullBook(labels, usable, cap, limit)) == Capacity(Indicator(labels, g), usable, cap, limit)
  {
    hide Times, CountTrue, Dot, Sum, ShareOf, Capacity;
    var v, indicator := FullBook(labels, usable, cap, limit), Indicator(labels, g);
    DotIsMasked(indicator, v);
    var flags := Carriers(indicator, usable);
    assert Masked(indicator, v) == Flagged(flags, ShareOf(indicator, usable, cap, limit));
    FlaggedSum(flags, ShareOf(indicator, usable, cap, limit));
    ShareOfFacts(indicator, usable, cap, limit);
  }

  // ---------------------------------------------------------------- the exact condition

  /** With gross an upper bound, only position and borrow limits and the limits of one grouping are configured. */
  predicate IsGroupLimited(p: Problem, c: Constraints, groups: Groups, limit: real) {
    && !c.grossEquality && p.tradeCaps.None? && c.betaLimit.None? && c.turnoverLimit.None? && c.volatility.None?
    && groups != map[]
    && ((p.sectors == groups && c.sectorLimit == Some(limit) && c.countryLimit.None?)
        || (p.countries == groups && c.countryLimit == Some(limit) && c.sectorLimit.None?))
  }

  ghost function Capacities(groups: Groups, usable: seq<bool>, cap: Option<real>, limit: real): map<string, real>
    requires forall g :: g in groups ==> |groups[g]| == |usable|
  {
    map g | g in groups :: Capacity(groups[g], usable, cap, limit)
  }

  /** All groups together can carry the net target. */
  ghost predicate GroupRoom(p: Problem, c: Constraints, groups: Groups, limit: real)
    requires |p.shortable| == p.n && forall g :: g in groups ==> |groups[g]| == p.n
  {
    Abs(c.netTarget) <= MapSum(Capacities(groups, UsableFor(p, c), c.maxPosition, limit))
  }

  lemma FeasibleMeansGroups(p: Problem, c: Constraints, groups: Groups, limit: real, w: Vector)
    requires ValidProblem(p) && IsGroupLimited(p, c, groups, limit)
    ensures Feasible(p, c, w) <==>
            && |w| == p.n && Sum(w) == c.netTarget && Gross(w) <= c.grossTarget
            && GroupsMeet(groups, Some(limit), w, 0.0)
            && (c.maxPosition.Some? ==> forall i :: 0 <= i < p.n ==> Abs(w[i]) <= c.maxPosition.value)
            && forall i :: 0 <= i < p.n && !p.shortable[i] ==> w[i] >= 0.0
  {
    hide Sum, Gross, Dot, OneWayTurnover, IsGrouping;
  }

  lemma LabelsOf(p: Problem, c: Constraints, groups: Groups, limit: real) returns (labels: seq<string>)
    requires ValidProblem(p) && IsGroupLimited(p, c, groups, limit)
    ensures |labels| == p.n && IsGrouping(groups, labels)
  {
    hide IsGrouping;
    labels :| |labels| == p.n && IsGrouping(groups, labels);
  }

  /** Reversing a book reverses its net and every group's. */
  lemma Reversed(a: Vector, w: Vector)
    requires |a| == |w|
    ensures Sum(Negated(w)) == -Sum(w) && Dot(a, Negated(w)) == -Dot(a, w) && Gross(Negated(w)) == Gross(w)
  {
    hide Sum, Dot;
    var zero := seq(|w|, _ => 0.0);
    SumConstant(zero, 0.0);
    SumOfDifferences(zero, w, Negated(w));
    NoExposure(a, zero);
    DotOfDifference(a, zero, w, Negated(w));
    assert AbsAll(Negated(w)) == AbsAll(w);
  }

  lemma {:induction false} NoExposure(a: Vector, zero: Vector)
    requires |a| == |zero| && forall i :: 0 <= i < |zero| ==> zero[i] == 0.0
    ensures Dot(a, zero) == 0.0
    decreases |a|
  {
    if a != [] {
      var n := |a| - 1;
      NoExposure(a[..n], zero[..n]);
      TimesByZero(a[n]);
    }
  }

  lemma GroupRoomNeeded(p: Problem, c: Constraints, groups: Groups, limit: real, labels: seq<string>, w: Vector)
    requires ValidProblem(p) && ValidConstraints(c) && IsGroupLimited(p, c, groups, limit) && Feasible(p, c, w)
    requires |labels| == p.n && IsGrouping(groups, labels)
    ensures GroupRoom(p, c, groups, limit)
  {
    hide Sum, Gross, Dot, Feasible, MapSum, Capacity, Times, CountTrue, ValidProblem;
    FeasibleMeansGroups(p, c, groups, limit, w);
    Shapes(p, c, groups, limit);
    var v, usable := Towards(c.netTarget, w), UsableFor(p, c);
    Reversed(w, w);
    var nets := NetByGroup(labels, v);
    GroupsPartition(labels, v);
    forall g | g in nets ensures g in groups && nets[g] <= Capacity(groups[g], usable, c.maxPosition, limit) {
      assert groups[g] == Indicator(labels, g);
      Reversed(groups[g], w);
      WithinCapacity(groups[g], usable, c.maxPosition, limit, v);
    }
    assert nets.Keys == groups.Keys;
    MapSumMonotone(nets, Capacities(groups, usable, c.maxPosition, limit));
  }

  lemma Shapes(p: Problem, c: Constraints, groups: Groups, limit: real)
    requires ValidProblem(p) && IsGroupLimited(p, c, groups, limit)
    ensures |p.shortable| == p.n > 0 && forall g :: g in groups ==> |groups[g]| == p.n
  {
    GroupSizes(p);
  }

  lemma GroupRoomEnough(p: Problem, c: Constraints, groups: Groups, limit: real, labels: seq<string>) returns (w: Vector)
    requires ValidProblem(p) && ValidConstraints(c) && IsGroupLimited(p, c, groups, limit)
    requires |labels| == p.n && IsGrouping(groups, labels) && GroupRoom(p, c, groups, limit)
    ensures Feasible(p, c, w)
  {
    hide Sum, Gross, Dot, Feasible, MapSum, Capacity, Times, CountTrue, ValidProblem, ShareOf, IsGrouping, GroupsMeet;
    Shapes(p, c, groups, limit);
    var usable := UsableFor(p, c);
    var full := FullBook(labels, usable, c.maxPosition, limit);
    var v := PartOfFull(groups, labels, usable, c.maxPosition, limit, Abs(c.netTarget));
    w := Towards(c.netTarget, v);
    Reversed(v, v);
    assert AbsAll(v) == v;
    GrossIsSum(v);
    FeasibleMeansGroups(p, c, groups, limit, w);
    MeetsBothWays(groups, limit, c.netTarget, v);
  }

  lemma GrossIsSum(v: Vector)
    ensures Gross(v) == Sum(AbsAll(v))
  {
  }

  lemma MeetsBothWays(groups: Groups, limit: real, net: real, v: Vector)
    requires GroupsMeet(groups, Some(limit), v, 0.0)
    ensures GroupsMeet(groups, Some(limit), Towards(net, v), 0.0)
  {
    hide Dot;
    forall g | g in groups && |groups[g]| == |v| ensures Abs(Dot(groups[g], Towards(net, v))) <= limit {
      Reversed(groups[g], v);
    }
  }

  /** The fullest book scaled down to a net it can carry. */
  lemma PartOfFull(groups: Groups, labels: seq<string>, usable: seq<bool>, cap: Option<real>, limit: real, net: real)
    returns (v: Vector)
    requires |labels| == |usable| && IsGrouping(groups, labels) && limit >= 0.0 && (cap.Some? ==> cap.value > 0.0)
    requires forall g :: g in groups ==> |groups[g]| == |usable|
    requires 0.0 <= net <= MapSum(Capacities(groups, usable, cap, limit))
    ensures |v| == |labels| && Sum(v) == net && GroupsMeet(groups, Some(limit), v, 0.0)
    ensures forall i :: 0 <= i < |v| ==> v[i] >= 0.0 && (!usable[i] ==> v[i] == 0.0) && (cap.Some? ==> v[i] <= cap.value)
  {
    hide Sum, Dot, MapSum, Capacity, Times, CountTrue, ShareOf;
    var full, zero := FullBook(labels, usable, cap, limit), seq(|labels|, _ => 0.0);
    FullTotal(groups, labels, usable, cap, limit);
    var t := Fraction(net, Sum(full));
    v := Blend(zero, full, t);
    SumConstant(zero, 0.0);
    BlendSum(zero, full, t);
    forall i | 0 <= i < |v| ensures v[i] >= 0.0 && (!usable[i] ==> v[i] == 0.0) && (cap.Some? ==> v[i] <= cap.value) {
      ShareOfFacts(Indicator(labels, labels[i]), usable, cap, limit);
      assert full[i] - zero[i] == full[i];
      PartOf(t, full[i]);
      TimesByZero(t);
    }
    forall g | g in groups ensures Abs(Dot(groups[g], v)) <= limit {
      FullGroup(labels, usable, cap, limit, g);
      ShareOfFacts(groups[g], usable, cap, limit);
      NoExposure(groups[g], zero);
      DotBlend(groups[g], zero, full, t);
      PartOf(t, Dot(groups[g], full));
    }
  }

  lemma FullTotal(groups: Groups, labels: seq<string>, usable: seq<bool>, cap: Option<real>, limit: real)
    requires |labels| == |usable| && IsGrouping(groups, labels) && limit >= 0.0 && (cap.Some? ==> cap.value > 0.0)
    requires forall g :: g in groups ==> |groups[g]| == |usable|
    ensures Sum(FullBook(labels, usable, cap, limit)) == MapSum(Capacities(groups, usable, cap, limit))
  {
    hide Sum, Dot, MapSum, Capacity, FullBook;
    var full := FullBook(labels, usable, cap, limit);
    GroupsPartition(labels, full);
    forall g | g in groups ensures NetByGroup(labels, full)[g] == Capacity(groups[g], usable, cap, limit) {
      FullGroup(labels, usable, cap, limit, g);
    }
    assert NetByGroup(labels, full) == Capacities(groups, usable, cap, limit);
  }

  /** With gross an upper bound, position, borrow and group limits admit a book exactly when the groups can carry the net. */
  lemma GroupFeasibleIff(p: Problem, c: Constraints, groups: Groups, limit: real)
    requires ValidProblem(p) && ValidConstraints(c) && IsGroupLimited(p, c, groups, limit)
    ensures (exists w :: Feasible(p, c, w)) <==> GroupRoom(p, c, groups, limit)
  {
    hide Feasible, GroupRoom, ValidProblem, ValidConstraints, IsGrouping;
    Shapes(p, c, groups, limit);
    var labels := LabelsOf(p, c, groups, limit);
    if w :| Feasible(p, c, w) {
      GroupRoomNeeded(p, c, groups, limit, labels, w);
    }
    if GroupRoom(p, c, groups, limit) {
      var w := GroupRoomEnough(p, c, groups, limit, labels);
    }
  }

  /** When the checks are silent on an infeasible problem: they let every group carry its limit, whatever its members can hold. */
  lemma MissedUnderGroupsIff(p: Problem, c: Constraints, groups: Groups, limit: real)
    requires ValidProblem(p) && ValidConstraints(c) && IsGroupLimited(p, c, groups, limit)
    ensures (forall k :: !Detected(p, c, k)) && !(exists w :: Feasible(p, c, w))
       <==> Silent(p.n, p.shortable, c) && Abs(c.netTarget) <= Times(limit, |groups.Keys| as real) + c.tolerance
            && !GroupRoom(p, c, groups, limit)
  {
    hide Feasible, Times, CountTrue, LongRequirement, ShortRequirement, GroupRoom, ValidProblem, ValidConstraints;
    Shapes(p, c, groups, limit);
    GroupFeasibleIff(p, c, groups, limit);
    if forall k :: !Detected(p, c, k) {
      assert !Detected(p, c, LongCapacity) && !Detected(p, c, NoShortableName) && !Detected(p, c, ShortCapacity);
      assert !Detected(p, c, SectorCapacity) && !Detected(p, c, CountryCapacity);
    }
  }

  function TwoSectors(): Groups {
    map["energy" := [1.0, 0.0, 0.0], "health" := [0.0, 1.0, 1.0]]
  }

  lemma TwoSectorsGroup()
    ensures var labels := ["energy", "health", "health"]; |labels| == 3 && IsGrouping(TwoSectors(), labels)
    ensures TwoSectors() != map[] && TwoSectors().Keys == {"energy", "health"} && |TwoSectors().Keys| == 2
  {
    var labels := ["energy", "health", "health"];
    assert labels[0] in labels && labels[1] in labels;
    assert TwoSectors()["energy"] == Indicator(labels, "energy");
    assert TwoSectors()["health"] == Indicator(labels, "health");
    assert TwoSectors().Keys == {"energy", "health"};
  }

  /** Two sectors of limit 0.25, one with a single name capped at 0.2: a net of 0.48 is infeasible, and nothing reports it. */
  lemma SmallSectorCannotFill(w: Vector)
    ensures var p := PlainProblem(3, [true, true, true]).(sectors := TwoSectors());
            var c := PlainConstraints(1.0, false, 0.48, Some(0.2), 0.000001).(sectorLimit := Some(0.25));
            && ValidProblem(p) && ValidConstraints(c)
            && (forall k :: !Detected(p, c, k))
            && !Feasible(p, c, w)
  {
    var p := PlainProblem(3, [true, true, true]).(sectors := TwoSectors());
    var c := PlainConstraints(1.0, false, 0.48, Some(0.2), 0.000001).(sectorLimit := Some(0.25));
    hide Times, Sum, Dot, CountTrue, IsGrouping;
    SmallSectorSilent(p, c);
    if |w| == 3 {
      ThreeNames(w);
    }
  }

  lemma SmallSectorSilent(p: Problem, c: Constraints)
    requires p == PlainProblem(3, [true, true, true]).(sectors := TwoSectors())
    requires c == PlainConstraints(1.0, false, 0.48, Some(0.2), 0.000001).(sectorLimit := Some(0.25))
    ensures ValidProblem(p) && forall k :: !Detected(p, c, k)
  {
    hide Sum, Dot, CountTrue, IsGrouping;
    TwoSectorsGroup();
    AllTrue(3);
    assert p.shortable == seq(3, _ => true);
  }

  lemma ThreeNames(w: Vector)
    requires |w| == 3
    ensures Sum(w) == w[0] + w[1] + w[2] && Dot(TwoSectors()["health"], w) == w[1] + w[2]
  {
    var indicator := TwoSectors()["health"];
    DotIsMasked(indicator, w);
    SumThree(w);
    SumThree(Masked(indicator, w));
  }

  lemma SumThree(v: Vector)
    requires |v| == 3
    ensures Sum(v) == v[0] + v[1] + v[2]
  {
    assert v == v[..2] + [v[2]];
    SumTwo(v[..2]);
    SumAppend(v[..2], v[2]);
  }
}
