/** The cap-and-redistribute waterfall for one side of a book. */
module PositionCaps {
  import opened Sums
  import opened Ordering
  import opened Wrappers
  import opened Dictionaries

  datatype CapError = InfeasibleCap

  /** Every name at the cap or at a common multiple of its magnitude, whichever is less. */
  function WaterLevel(magnitudes: map<Id, real>, cap: real, level: real): map<Id, real> {
    map k | k in magnitudes :: Min(cap, Times(level, magnitudes[k]))
  }

  ghost predicate AllPositive(m: map<Id, real>) {
    forall k :: k in m ==> m[k] > 0.0
  }

  /** The waterfall's working state: pinned names at the cap, the others scaled by one level. */
  function Working(magnitudes: map<Id, real>, pinned: set<Id>, cap: real, level: real): map<Id, real> {
    map k | k in magnitudes :: if k in pinned then cap else Times(level, magnitudes[k])
  }

  /** The part of a dictionary outside a set of names. */
  function Free(m: map<Id, real>, pinned: set<Id>): map<Id, real> {
    map k | k in m && k !in pinned :: m[k]
  }

  function Pinned(m: map<Id, real>, pinned: set<Id>, cap: real): map<Id, real> {
    map k | k in m && k in pinned :: cap
  }

  /** The total of a working state: the cap for every pinned name, plus the free names. */
  lemma WorkingSum(magnitudes: map<Id, real>, pinned: set<Id>, cap: real, level: real)
    requires pinned <= magnitudes.Keys
    ensures MapSum(Working(magnitudes, pinned, cap, level))
         == Times(cap, |pinned| as real) + Times(level, MapSum(Free(magnitudes, pinned)))
  {
    hide Times, MapSum;
    var w := Working(magnitudes, pinned, cap, level);
    MapSumSplit(w, Pinned(magnitudes, pinned, cap), Free(w, pinned));
    PinnedSum(magnitudes, pinned, cap);
    FreeScales(magnitudes, pinned, pinned, cap, level);
  }

  lemma PinnedSum(magnitudes: map<Id, real>, pinned: set<Id>, cap: real)
    requires pinned <= magnitudes.Keys
    ensures MapSum(Pinned(magnitudes, pinned, cap)) == Times(cap, |pinned| as real)
  {
    MapSumConstant(Pinned(magnitudes, pinned, cap), cap);
    assert Pinned(magnitudes, pinned, cap).Keys == pinned;
  }

  ghost predicate Invariant(magnitudes: map<Id, real>, pinned: set<Id>, cap: real, level: real) {
    && pinned <= magnitudes.Keys
    && level >= 1.0
    && forall k :: k in pinned ==> Times(level, magnitudes[k]) >= cap
  }

  lemma LevelRises(low: real, high: real, m: real)
    requires low <= high && m > 0.0
    ensures Times(low, m) <= Times(high, m)
  {
    if low < high {
      Distribute(m, high - low, low);
      ProductPositive(m, high - low);
    }
  }

  /** Pinning the names above the cap leaves more for the free names than they hold. */
  lemma PinningReleases(magnitudes: map<Id, real>, pinned: set<Id>, overs: set<Id>, cap: real, level: real, total: real)
    requires AllPositive(magnitudes) && cap > 0.0 && overs != {}
    requires Invariant(magnitudes, pinned, cap, level)
    requires overs <= magnitudes.Keys - pinned
    requires forall k :: k in overs ==> Times(level, magnitudes[k]) > cap
    requires MapSum(Working(magnitudes, pinned, cap, level)) == total
    ensures total > Times(cap, |pinned + overs| as real) + Times(level, MapSum(Free(magnitudes, pinned + overs)))
  {
    hide Times, MapSum;
    var before := Working(magnitudes, pinned, cap, level);
    var after := Working(magnitudes, pinned + overs, cap, level);
    WorkingSum(magnitudes, pinned + overs, cap, level);
    MapSumMonotone(after, before);
    var k :| k in overs;
    assert after[k] == cap < before[k];
  }

  lemma FreePositive(magnitudes: map<Id, real>, pinned: set<Id>)
    requires AllPositive(magnitudes) && magnitudes.Keys - pinned != {}
    ensures MapSum(Free(magnitudes, pinned)) > 0.0
  {
    var k :| k in magnitudes.Keys - pinned;
    assert k in Free(magnitudes, pinned);
    MapSumPositive(Free(magnitudes, pinned));
  }

  /** The rescaling factor, and the level it leads to. */
  lemma Rescale(level: real, freeSum: real, remaining: real)
    requires level >= 1.0 && freeSum > 0.0 && remaining > Times(level, freeSum)
    ensures Times(level, freeSum) > 0.0
    ensures remaining / Times(level, freeSum) > 1.0
    ensures Times(level, remaining / Times(level, freeSum)) >= level
    ensures Times(Times(level, remaining / Times(level, freeSum)), freeSum) == remaining
  {
    ProductPositive(level, freeSum);
    var d := Times(level, freeSum);
    var q := remaining / d;
    assert Times(q, d) == remaining;
    assert Times(1.0, d) == d;
    if q <= 1.0 {
      LevelRises(q, 1.0, d);
    }
    LevelRises(1.0, q, level);
    assert Times(1.0, level) == level && Times(q, level) == Times(level, q);
    assert Times(Times(level, q), freeSum) == Times(q, d);
  }

  /** When nothing free is above the cap, the working state is the water level. */
  lemma Settled(magnitudes: map<Id, real>, pinned: set<Id>, cap: real, level: real)
    requires Invariant(magnitudes, pinned, cap, level)
    requires forall k :: k in magnitudes && k !in pinned ==> Times(level, magnitudes[k]) <= cap
    ensures Working(magnitudes, pinned, cap, level) == WaterLevel(magnitudes, cap, level)
  {
    hide Times;
  }

  /** The next working state of one pass. */
  lemma NextState(
      magnitudes: map<Id, real>, pinned: set<Id>, overs: set<Id>, cap: real, level: real, total: real, next: real)
    requires AllPositive(magnitudes) && cap > 0.0 && overs != {}
    requires Invariant(magnitudes, pinned, cap, level)
    requires overs <= magnitudes.Keys - pinned
    requires forall k :: k in overs ==> Times(level, magnitudes[k]) > cap
    requires next >= level
    requires Times(next, MapSum(Free(magnitudes, pinned + overs))) == total - Times(cap, |pinned + overs| as real)
    ensures Invariant(magnitudes, pinned + overs, cap, next)
    ensures MapSum(Working(magnitudes, pinned + overs, cap, next)) == total
  {
    hide Times, MapSum;
    WorkingSum(magnitudes, pinned + overs, cap, next);
    forall k | k in pinned + overs ensures Times(next, magnitudes[k]) >= cap {
      LevelRises(level, next, magnitudes[k]);
    }
  }

  lemma ScaleFree(magnitudes: map<Id, real>, before: set<Id>, pinned: set<Id>, cap: real, level: real, scale: real)
    requires before <= pinned
    ensures var current := Working(magnitudes, before, cap, level);
            Working(magnitudes, pinned, cap, Times(level, scale))
              == map k | k in current :: if k in pinned then cap else Times(current[k], scale)
  {
    forall k | k in magnitudes
      ensures Times(Times(level, scale), magnitudes[k]) == Times(Times(level, magnitudes[k]), scale)
    {
    }
  }

  function Overs(current: map<Id, real>, pinned: set<Id>, cap: real): set<Id> {
    set k | k in current && k !in pinned && current[k] > cap
  }

  lemma OversFacts(magnitudes: map<Id, real>, pinned: set<Id>, cap: real, level: real)
    ensures var overs := Overs(Working(magnitudes, pinned, cap, level), pinned, cap);
            && overs <= magnitudes.Keys - pinned
            && forall k :: k in magnitudes && k !in pinned ==> (k in overs <==> Times(level, magnitudes[k]) > cap)
  {
    hide Times;
  }

  /** Caps one side of a book. For positive magnitudes that sum to the side total the result keeps the total,
      respects the cap, and puts every name at min(cap, level * magnitude) for one level of at least 1.
      Each pass pins a name, so there are at most as many passes as names.
      The early return with no free name and the zeroing branch are unreachable. */
  method ApplyPositionCaps(magnitudes: map<Id, real>, cap: real, sideTotal: real)
    returns (r: Result<map<Id, real>, CapError>, ghost level: real, ghost passes: nat)
    requires AllPositive(magnitudes) && cap > 0.0 && MapSum(magnitudes) == sideTotal
    ensures r.Failure? <==> Times(cap, |magnitudes.Keys| as real) < sideTotal
    ensures r.Success? ==> level >= 1.0 && r.value == WaterLevel(magnitudes, cap, level)
    ensures r.Success? ==> MapSum(r.value) == sideTotal
    ensures passes <= |magnitudes|
  {
    hide Times, MapSum, Invariant, AllPositive, WaterLevel, Overs, Working;
    level, passes := 1.0, 0;
    if Times(cap, |magnitudes.Keys| as real) < sideTotal {
      return Failure(InfeasibleCap), level, passes;
    }
    var pinned: set<Id> := {};
    var current := magnitudes;
    Start(magnitudes, cap);
    assert magnitudes.Keys - pinned == magnitudes.Keys;
    while true
      invariant Invariant(magnitudes, pinned, cap, level)
      invariant pinned <= magnitudes.Keys && level >= 1.0
      invariant current == Working(magnitudes, pinned, cap, level)
      invariant MapSum(current) == sideTotal
      invariant passes + |magnitudes.Keys - pinned| <= |magnitudes|
      decreases |magnitudes.Keys - pinned|
    {
      var overs := Overs(current, pinned, cap);
      OversFacts(magnitudes, pinned, cap, level);
      if overs == {} {
        Settled(magnitudes, pinned, cap, level);
        return Success(current), level, passes;
      }
      PinningReleases(magnitudes, pinned, overs, cap, level, sideTotal);
      FewerFree(magnitudes, pinned, overs);
      current, level := OnePass(magnitudes, current, pinned, overs, cap, sideTotal, level);
      pinned := pinned + overs;
      passes := passes + 1;
    }
  }

  lemma FewerFree(magnitudes: map<Id, real>, pinned: set<Id>, overs: set<Id>)
    requires overs != {} && overs <= magnitudes.Keys - pinned
    ensures |magnitudes.Keys - (pinned + overs)| < |magnitudes.Keys - pinned|
  {
    var rest, all := magnitudes.Keys - (pinned + overs), magnitudes.Keys - pinned;
    assert all == rest + overs && rest !! overs;
    assert |all| == |rest| + |overs|;
  }

  /** Pins the names above the cap and rescales the free ones to fill the side again. */
  method OnePass(
      magnitudes: map<Id, real>, current: map<Id, real>, before: set<Id>, overs: set<Id>, cap: real, sideTotal: real,
      ghost level: real)
    returns (next: map<Id, real>, ghost level': real)
    requires AllPositive(magnitudes) && cap > 0.0 && overs != {}
    requires Invariant(magnitudes, before, cap, level) && level >= 1.0
    requires overs <= magnitudes.Keys - before
    requires forall k :: k in overs ==> Times(level, magnitudes[k]) > cap
    requires current == Working(magnitudes, before, cap, level) && MapSum(current) == sideTotal
    requires Times(cap, |magnitudes.Keys| as real) >= sideTotal
    requires sideTotal > Times(cap, |before + overs| as real) + Times(level, MapSum(Free(magnitudes, before + overs)))
    ensures level' >= 1.0 && Invariant(magnitudes, before + overs, cap, level')
    ensures next == Working(magnitudes, before + overs, cap, level') && MapSum(next) == sideTotal
  {
    hide Times, MapSum, Invariant, AllPositive, Working;
    var pinned := before + overs;
    var remaining := sideTotal - Times(cap, |pinned| as real);
    if magnitudes.Keys - pinned == {} {
      assert false by { AllPinned(magnitudes, pinned, cap, level, before); }
    }
    FreePositive(magnitudes, pinned);
    var freeSum := SumValues(Free(current, pinned));
    FreeScales(magnitudes, before, pinned, cap, level);
    Rescale(level, MapSum(Free(magnitudes, pinned)), remaining);
    if freeSum == 0.0 || remaining <= 0.0 {
      assert false;
    }
    var scale := remaining / freeSum;
    level' := Times(level, scale);
    next := map k | k in current :: if k in pinned then cap else Times(current[k], scale);
    NextState(magnitudes, before, overs, cap, level, sideTotal, level');
    ScaleFree(magnitudes, before, pinned, cap, level, scale);
  }

  lemma Start(magnitudes: map<Id, real>, cap: real)
    ensures Invariant(magnitudes, {}, cap, 1.0) && Working(magnitudes, {}, cap, 1.0) == magnitudes
  {
  }

  lemma AllPinned(magnitudes: map<Id, real>, pinned: set<Id>, cap: real, level: real, before: set<Id>)
    requires before <= pinned && pinned - before <= magnitudes.Keys && magnitudes.Keys - pinned == {}
    requires Invariant(magnitudes, before, cap, level)
    ensures pinned == magnitudes.Keys && Times(level, MapSum(Free(magnitudes, pinned))) == 0.0
  {
    forall k | k in magnitudes.Keys ensures k in pinned {
      assert k !in magnitudes.Keys - pinned;
    }
    assert pinned == magnitudes.Keys;
    assert Free(magnitudes, pinned) == map[];
    TimesByZero(level);
  }

  lemma FreeScales(magnitudes: map<Id, real>, before: set<Id>, pinned: set<Id>, cap: real, level: real)
    requires before <= pinned
    ensures MapSum(Free(Working(magnitudes, before, cap, level), pinned)) == Times(level, MapSum(Free(magnitudes, pinned)))
  {
    hide Times, MapSum;
    MapSumScale(level, Free(magnitudes, pinned), Free(Working(magnitudes, before, cap, level), pinned));
  }

  /** The water level is determined by its total: two levels with the same total give the same book. */
  lemma WaterLevelUnique(magnitudes: map<Id, real>, cap: real, low: real, high: real)
    requires AllPositive(magnitudes) && low <= high
    requires MapSum(WaterLevel(magnitudes, cap, low)) == MapSum(WaterLevel(magnitudes, cap, high))
    ensures WaterLevel(magnitudes, cap, low) == WaterLevel(magnitudes, cap, high)
  {
    hide Times, MapSum;
    forall k | k in magnitudes
      ensures WaterLevel(magnitudes, cap, low)[k] <= WaterLevel(magnitudes, cap, high)[k]
    {
      LevelRises(low, high, magnitudes[k]);
    }
    MapSumMonotone(WaterLevel(magnitudes, cap, low), WaterLevel(magnitudes, cap, high));
  }
}
