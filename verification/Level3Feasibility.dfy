/** Exactly when position and borrow limits leave room for a book, and when the pre-solve checks say nothing about it. */
module Level3Feasibility {
  import opened Sums
  import opened Wrappers
  import opened Level3

  // ---------------------------------------------------------------- how many names a side needs

  /** The fewest names that can hold a side of the book under the position cap. */
  function NamesNeeded(cap: Option<real>, side: real): (k: nat)
    requires cap.Some? ==> cap.value > 0.0
  {
    if side <= 0.0 then 0
    else if cap.None? then 1
    else
      PositiveQuotient(side, cap.value);
      Ceil(side / cap.value)
  }

  lemma PositiveQuotient(x: real, y: real)
    requires x > 0.0 && y > 0.0
    ensures x / y > 0.0
  {
  }

  /** k names can hold the side. */
  predicate Carries(cap: Option<real>, k: nat, side: real) {
    side <= 0.0 || (k > 0 && (cap.Some? ==> Times(cap.value, k as real) >= side))
  }

  lemma CarriesIff(cap: Option<real>, k: nat, side: real)
    requires cap.Some? ==> cap.value > 0.0
    ensures Carries(cap, k, side) <==> k >= NamesNeeded(cap, side)
  {
    hide Times;
    if side > 0.0 && cap.Some? {
      PositiveQuotient(side, cap.value);
      OverPeriods(-(k as real), -side, cap.value);
      NegatedQuotient(side, cap.value);
      Commute(cap.value, -(k as real));
      NegativeFactor(k as real, cap.value);
      Commute(cap.value, k as real);
    }
  }

  // ---------------------------------------------------------------- counting flags

  function Not(flags: seq<bool>): (r: seq<bool>)
    ensures |r| == |flags|
  {
    seq(|flags|, i requires 0 <= i < |flags| => !flags[i])
  }

  lemma {:induction false} CountNot(flags: seq<bool>)
    ensures CountTrue(Not(flags)) == |flags| - CountTrue(flags)
    decreases |flags|
  {
    if flags != [] {
      var n := |flags| - 1;
      CountNot(flags[..n]);
      assert Not(flags)[..n] == Not(flags[..n]);
    }
  }

  lemma {:induction false} CountSubset(a: seq<bool>, b: seq<bool>)
    requires |a| == |b| && forall i :: 0 <= i < |a| && a[i] ==> b[i]
    ensures CountTrue(a) <= CountTrue(b)
    decreases |a|
  {
    if a != [] {
      var n := |a| - 1;
      CountSubset(a[..n], b[..n]);
    }
  }

  /** The first k set flags. */
  function Choose(flags: seq<bool>, k: nat): (r: seq<bool>)
    ensures |r| == |flags|
  {
    if flags == [] then [] else
    var n := |flags| - 1;
    Choose(flags[..n], k) + [flags[n] && CountTrue(flags[..n]) < k]
  }

  lemma {:induction false} ChooseFacts(flags: seq<bool>, k: nat)
    requires k <= CountTrue(flags)
    ensures CountTrue(Choose(flags, k)) == k
    ensures forall i :: 0 <= i < |flags| && Choose(flags, k)[i] ==> flags[i]
  {
    ChooseCount(flags, k);
    ChooseSubset(flags, k);
  }

  lemma {:induction false} ChooseCount(flags: seq<bool>, k: nat)
    ensures CountTrue(Choose(flags, k)) == if k <= CountTrue(flags) then k else CountTrue(flags)
    decreases |flags|
  {
    if flags != [] {
      var n := |flags| - 1;
      ChooseCount(flags[..n], k);
      assert Choose(flags, k)[..n] == Choose(flags[..n], k);
    }
  }

  lemma {:induction false} ChooseSubset(flags: seq<bool>, k: nat)
    ensures forall i :: 0 <= i < |flags| && Choose(flags, k)[i] ==> flags[i]
    decreases |flags|
  {
    if flags != [] {
      var n := |flags| - 1;
      ChooseSubset(flags[..n], k);
      assert forall i :: 0 <= i < n ==> Choose(flags, k)[i] == Choose(flags[..n], k)[i] && flags[..n][i] == flags[i];
    }
  }

  // ---------------------------------------------------------------- a feasible book needs the names

  /** The names a book is long, and those it is short. */
  function LongNames(w: Vector): (r: seq<bool>)
    ensures |r| == |w|
  {
    seq(|w|, i requires 0 <= i < |w| => w[i] > 0.0)
  }

  function ShortNames(w: Vector): (r: seq<bool>)
    ensures |r| == |w|
  {
    seq(|w|, i requires 0 <= i < |w| => w[i] < 0.0)
  }

  lemma SideCarried(v: Vector, flags: seq<bool>, cap: Option<real>, side: real)
    requires |v| == |flags| && (cap.Some? ==> cap.value > 0.0)
    requires forall i :: 0 <= i < |v| && !flags[i] ==> v[i] <= 0.0
    requires cap.Some? ==> forall i :: 0 <= i < |v| && flags[i] ==> v[i] <= cap.value
    requires Sum(v) >= side
    ensures Carries(cap, CountTrue(flags), side)
  {
    hide Sum, Times;
    if CountTrue(flags) == 0 {
      NoneTrue(flags);
      CappedSum(v, flags, 0.0);
      TimesByZero(0.0);
    }
    if cap.Some? {
      CappedSum(v, flags, cap.value);
    }
  }

  lemma FeasibleNeedsNames(n: nat, shortable: seq<bool>, c: Constraints, w: Vector)
    requires n > 0 && |shortable| == n && IsPlain(c) && Feasible(PlainProblem(n, shortable), c, w)
    requires ValidConstraints(c)
    ensures Roomy(n, shortable, c)
  {
    hide Sum, NamesNeeded, CountTrue, Carries, Gross;
    var p := PlainProblem(n, shortable);
    var long, short := LongNames(w), ShortNames(w);
    SidesCarryTargets(p, c, w);
    SideCarried(Longs(w), long, c.maxPosition, LongRequirement(c));
    SideCarried(Shorts(w), short, c.maxPosition, ShortRequirement(c));
    CarriesIff(c.maxPosition, CountTrue(long), LongRequirement(c));
    CarriesIff(c.maxPosition, CountTrue(short), ShortRequirement(c));
    CountNot(short);
    CountSubset(long, Not(short));
    CountSubset(short, shortable);
  }

  // ---------------------------------------------------------------- enough names make a feasible book

  /** What each of k names holds of a side. */
  function Share(side: real, k: nat): real {
    if k == 0 then 0.0 else side / k as real
  }

  lemma ShareFacts(cap: Option<real>, side: real, k: nat)
    requires side >= 0.0 && Carries(cap, k, side) && (k == 0 ==> side == 0.0) && (k > 0 ==> side > 0.0)
    ensures Share(side, k) >= 0.0 && Times(Share(side, k), k as real) == side
    ensures cap.Some? && k > 0 ==> Share(side, k) <= cap.value
  {
    if k > 0 {
      Quotient(side, k as real);
      if cap.Some? {
        PerName(side, k as real, cap.value, 0.0);
      }
    } else {
      TimesByZero(0.0);
    }
  }

  /** Spreads each side evenly over names of its own. */
  function SpreadBook(long: seq<bool>, x: real, short: seq<bool>, y: real): (w: Vector)
    requires |long| == |short|
    ensures |w| == |long|
  {
    Minus(Flagged(long, x), Flagged(short, y))
  }

  lemma SpreadSums(long: seq<bool>, x: real, short: seq<bool>, y: real)
    requires |long| == |short| && x >= 0.0 && y >= 0.0
    requires forall i :: 0 <= i < |long| && long[i] ==> !short[i]
    ensures Sum(SpreadBook(long, x, short, y)) == Times(x, CountTrue(long) as real) - Times(y, CountTrue(short) as real)
    ensures Gross(SpreadBook(long, x, short, y)) == Times(x, CountTrue(long) as real) + Times(y, CountTrue(short) as real)
  {
    var w := SpreadBook(long, x, short, y);
    forall i | 0 <= i < |w|
      ensures w[i] == Flagged(long, x)[i] - Flagged(short, y)[i]
      ensures AbsAll(w)[i] == Flagged(long, x)[i] + Flagged(short, y)[i]
    {
      SpreadEntry(long, x, short, y, i);
    }
    hide Sum, Times, CountTrue, Flagged, SpreadBook, AbsAll;
    FlaggedSum(long, x);
    FlaggedSum(short, y);
    SumOfDifferences(Flagged(long, x), Flagged(short, y), w);
    SumOfSums(Flagged(long, x), Flagged(short, y), AbsAll(w));
  }

  lemma SumOfDifferences(a: Vector, b: Vector, c: Vector)
    requires |a| == |b| == |c| && forall i :: 0 <= i < |c| ==> c[i] == a[i] - b[i]
    ensures Sum(c) == Sum(a) - Sum(b)
  {
    hide Sum;
    SumLinear(a, -1.0, b, c);
  }

  lemma SumOfSums(a: Vector, b: Vector, c: Vector)
    requires |a| == |b| == |c| && forall i :: 0 <= i < |c| ==> c[i] == a[i] + b[i]
    ensures Sum(c) == Sum(a) + Sum(b)
  {
    hide Sum;
    SumLinear(a, 1.0, b, c);
  }

  lemma SpreadEntry(long: seq<bool>, x: real, short: seq<bool>, y: real, i: nat)
    requires |long| == |short| && x >= 0.0 && y >= 0.0 && i < |long| && (long[i] ==> !short[i])
    ensures SpreadBook(long, x, short, y)[i] == Flagged(long, x)[i] - Flagged(short, y)[i]
    ensures AbsAll(SpreadBook(long, x, short, y))[i] == Flagged(long, x)[i] + Flagged(short, y)[i]
  {
  }

  lemma NamesMakeFeasible(n: nat, shortable: seq<bool>, c: Constraints) returns (w: Vector)
    requires n > 0 && |shortable| == n && IsPlain(c) && ValidConstraints(c) && Roomy(n, shortable, c)
    ensures Feasible(PlainProblem(n, shortable), c, w)
  {
    hide Sum, Times, CountTrue, Choose, Gross, Share, Carries;
    var l, s := LongRequirement(c), ShortRequirement(c);
    var a, b := NamesNeeded(c.maxPosition, l), NamesNeeded(c.maxPosition, s);
    CarriesIff(c.maxPosition, a, l);
    CarriesIff(c.maxPosition, b, s);
    NeededForSomething(c.maxPosition, l);
    NeededForSomething(c.maxPosition, s);
    ShareFacts(c.maxPosition, l, a);
    ShareFacts(c.maxPosition, s, b);
    hide NamesNeeded;
    var short := Choose(shortable, b);
    ChooseFacts(shortable, b);
    CountNot(short);
    var long := Choose(Not(short), a);
    ChooseFacts(Not(short), a);
    w := SpreadBook(long, Share(l, a), short, Share(s, b));
    SpreadSums(long, Share(l, a), short, Share(s, b));
    if c.maxPosition.Some? {
      forall i | 0 <= i < n ensures Abs(w[i]) <= c.maxPosition.value {
        if long[i] {
          AnyFlag(long, i);
        } else if short[i] {
          AnyFlag(short, i);
        }
      }
    }
  }

  lemma NeededForSomething(cap: Option<real>, side: real)
    requires cap.Some? ==> cap.value > 0.0
    ensures NamesNeeded(cap, side) > 0 <==> side > 0.0
  {
    if side > 0.0 && cap.Some? {
      PositiveQuotient(side, cap.value);
    }
  }

  lemma AnyFlag(flags: seq<bool>, i: nat)
    requires i < |flags| && flags[i]
    ensures CountTrue(flags) > 0
  {
    NoneTrueBelow(flags);
  }

  // ---------------------------------------------------------------- the exact conditions

  /** Only gross, net, position and borrow constraints are configured. */
  predicate IsPlain(c: Constraints) {
    c == PlainConstraints(c.grossTarget, c.grossEquality, c.netTarget, c.maxPosition, c.tolerance)
  }

  /** The two sides of the book find enough names, of which enough can be shorted. */
  predicate Roomy(n: nat, shortable: seq<bool>, c: Constraints)
    requires ValidConstraints(c)
  {
    var long, short := NamesNeeded(c.maxPosition, LongRequirement(c)), NamesNeeded(c.maxPosition, ShortRequirement(c));
    long + short <= n && short <= CountTrue(shortable)
  }

  /** In either gross mode, the position and borrow limits admit a book exactly when there is room for both sides. */
  lemma PlainFeasibleIff(n: nat, shortable: seq<bool>, c: Constraints)
    requires n > 0 && |shortable| == n && IsPlain(c) && ValidConstraints(c)
    ensures (exists w :: Feasible(PlainProblem(n, shortable), c, w)) <==> Roomy(n, shortable, c)
  {
    hide Feasible, Roomy;
    if w :| Feasible(PlainProblem(n, shortable), c, w) {
      FeasibleNeedsNames(n, shortable, c, w);
    }
    if Roomy(n, shortable, c) {
      var w := NamesMakeFeasible(n, shortable, c);
    }
  }

  /** No pre-solve check reports anything. */
  predicate Silent(n: nat, shortable: seq<bool>, c: Constraints) {
    && (c.maxPosition.Some? ==>
          && Times(c.maxPosition.value, n as real) >= LongRequirement(c) - c.tolerance
          && Times(c.maxPosition.value, CountTrue(shortable) as real) >= ShortRequirement(c) - c.tolerance)
    && (ShortRequirement(c) > c.tolerance ==> CountTrue(shortable) > 0)
  }

  lemma SilentIff(n: nat, shortable: seq<bool>, c: Constraints)
    requires n > 0 && |shortable| == n && IsPlain(c)
    ensures (forall k :: !Detected(PlainProblem(n, shortable), c, k)) <==> Silent(n, shortable, c)
  {
    hide Times, CountTrue, LongRequirement, ShortRequirement;
    var p := PlainProblem(n, shortable);
    if forall k :: !Detected(p, c, k) {
      assert !Detected(p, c, LongCapacity) && !Detected(p, c, NoShortableName) && !Detected(p, c, ShortCapacity);
    }
  }

  /**
   * Where the pre-solve checks miss an infeasible problem: each side could be held by all the
   * names there are for it, short of the tolerance, but the two cannot be held by different names.
   */
  lemma MissedInfeasibleIff(n: nat, shortable: seq<bool>, c: Constraints)
    requires n > 0 && |shortable| == n && IsPlain(c) && ValidConstraints(c)
    ensures (forall k :: !Detected(PlainProblem(n, shortable), c, k))
            && !(exists w :: Feasible(PlainProblem(n, shortable), c, w))
       <==> Silent(n, shortable, c) && !Roomy(n, shortable, c)
  {
    hide Feasible, Roomy, Silent, Detected;
    SilentIff(n, shortable, c);
    PlainFeasibleIff(n, shortable, c);
  }
}
