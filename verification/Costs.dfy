/** The trading cost model: a stack of charges priced off same-day group totals. */
module Costs {
  import opened Sums
  import opened Ordering
  import opened Wrappers

  datatype Bucket = Commission | Spread | Linear | Impact | ParticipationPenalty

  datatype Trade = Trade(
    securityId: Id, tradeDate: int, signedNotional: real,
    region: Option<string>, advNotional: Option<real>, spreadBps: Option<real>)

  function Notional(t: Trade): real {
    Abs(t.signedNotional)
  }

  /** Trades that fail these checks are refused when they are built. */
  predicate ValidTrade(t: Trade) {
    && t.securityId != ""
    && (t.advNotional.Some? ==> t.advNotional.value >= 0.0)
    && (t.spreadBps.Some? ==> t.spreadBps.value >= 0.0)
  }

  datatype Component =
    | FixedCommission(perTrade: real)
    | HalfSpread(crossingFraction: real)
    | LinearCost(oneWayBps: real, overrides: map<string, real>)
    | MarketImpact(coefficientBps: real, exponent: real)
    | AdvParticipation(maxParticipation: real, penaltyBps: Option<real>)
  {
    function BucketOf(): Bucket {
      match this
      case FixedCommission(_) => Commission
      case HalfSpread(_) => Spread
      case LinearCost(_, _) => Linear
      case MarketImpact(_, _) => Impact
      case AdvParticipation(_, _) => ParticipationPenalty
    }
  }

  predicate ValidComponent(c: Component) {
    match c
    case FixedCommission(p) => p >= 0.0
    case HalfSpread(f) => 0.0 <= f <= 1.0
    case LinearCost(b, o) => b >= 0.0 && forall r :: r in o ==> o[r] >= 0.0
    case MarketImpact(c, e) => c >= 0.0 && e > 0.0
    case AdvParticipation(m, p) => m > 0.0 && (p.Some? ==> p.value >= 0.0)
  }

  datatype SizeScaling = SizeScaling(referenceAum: real, exponent: real, appliesTo: seq<Bucket>)

  /** The components in stack order, the regional multipliers and the size hook. */
  datatype Stack = Stack(components: seq<Component>, regionMultipliers: map<string, real>, sizeScaling: Option<SizeScaling>)

  predicate AllComponentsValid(cs: seq<Component>) {
    forall i :: 0 <= i < |cs| ==> ValidComponent(cs[i])
  }

  predicate ValidStack(s: Stack) {
    && AllComponentsValid(s.components)
    && (forall r :: r in s.regionMultipliers ==> s.regionMultipliers[r] >= 0.0)
    && (s.sizeScaling.Some? ==> s.sizeScaling.value.referenceAum > 0.0 && s.sizeScaling.value.exponent >= 0.0)
  }

  datatype CostError = MissingInput | InvalidInput

  datatype Charge = Charge(amount: real, flagged: bool)

  const BPS: real := 0.0001

  /** The power law: all that is used is that it is not negative on non-negative bases. */
  type Power = (real, real) -> real

  ghost predicate PowerContract(pow: Power) {
    forall b, e :: b >= 0.0 ==> pow(b, e) >= 0.0
  }

  // ---------------------------------------------------------------- component rules

  function RateBps(c: Component, region: Option<string>): real
    requires c.LinearCost?
  {
    if region.Some? && region.value in c.overrides then c.overrides[region.value] else c.oneWayBps
  }

  function SpreadRate(crossingFraction: real, spreadBps: real): real {
    crossingFraction * spreadBps * BPS
  }

  function ImpactRate(coefficientBps: real, scaled: real): real {
    coefficientBps * BPS * scaled
  }

  function PenaltyOn(penaltyBps: real, excess: real): real {
    penaltyBps * BPS * excess
  }

  /** One component's charge for one trade of a group with the given gross notional. */
  function ChargeOf(c: Component, pow: Power, t: Trade, group: real): Result<Charge, CostError>
    requires ValidComponent(c) && ValidTrade(t)
  {
    match c
    case FixedCommission(perTrade) =>
      Success(Charge(if Notional(t) == 0.0 then 0.0 else perTrade, false))
    case HalfSpread(fraction) =>
      if Notional(t) == 0.0 then Success(Charge(0.0, false))
      else if t.spreadBps.None? then Failure(MissingInput)
      else Success(Charge(Times(SpreadRate(fraction, t.spreadBps.value), Notional(t)), false))
    case LinearCost(_, _) =>
      Success(Charge(Times(RateBps(c, t.region) * BPS, Notional(t)), false))
    case MarketImpact(coefficient, exponent) =>
      if Notional(t) == 0.0 then Success(Charge(0.0, false))
      else if t.advNotional.None? then Failure(MissingInput)
      else if t.advNotional.value <= 0.0 then Failure(InvalidInput)
      else if coefficient == 0.0 then Success(Charge(0.0, false))
      else Success(Charge(Times(ImpactRate(coefficient, pow(group / t.advNotional.value, exponent)), Notional(t)), false))
    case AdvParticipation(maximum, penalty) =>
      if Notional(t) == 0.0 then Success(Charge(0.0, false))
      else if t.advNotional.None? then Failure(MissingInput)
      else
        var excess := group - Times(maximum, t.advNotional.value);
        if excess <= 0.0 then Success(Charge(0.0, false))
        else if penalty.None? then Success(Charge(0.0, true))
        else
          NonNegative(maximum, t.advNotional.value);
          Success(Charge(Times(PenaltyOn(penalty.value, excess), Notional(t) / group), true))
  }

  /** What a component charges per unit of notional, from attributes the slices of a trade share. */
  function UnitRate(c: Component, pow: Power, t: Trade, group: real): real {
    match c
    case FixedCommission(_) => 0.0
    case HalfSpread(fraction) => if t.spreadBps.None? then 0.0 else SpreadRate(fraction, t.spreadBps.value)
    case LinearCost(_, _) => RateBps(c, t.region) * BPS
    case MarketImpact(coefficient, exponent) =>
      if t.advNotional.None? || t.advNotional.value <= 0.0 || coefficient == 0.0 then 0.0
      else ImpactRate(coefficient, pow(group / t.advNotional.value, exponent))
    case AdvParticipation(maximum, penalty) =>
      if t.advNotional.None? || penalty.None? || group == 0.0 then 0.0
      else
        var excess := group - Times(maximum, t.advNotional.value);
        if excess <= 0.0 then 0.0 else PenaltyOn(penalty.value, excess) / group
  }

  /** Whether a component has the inputs it needs to price a non-zero trade. */
  predicate InputsPresent(c: Component, t: Trade) {
    match c
    case FixedCommission(_) => true
    case HalfSpread(_) => t.spreadBps.Some?
    case LinearCost(_, _) => true
    case MarketImpact(_, _) => t.advNotional.Some? && t.advNotional.value > 0.0
    case AdvParticipation(_, _) => t.advNotional.Some?
  }

  /** Whether the group's gross breaches the participation cap. */
  predicate Breaches(c: Component, t: Trade, group: real) {
    c.AdvParticipation? && t.advNotional.Some? && group > Times(c.maxParticipation, t.advNotional.value)
  }

  lemma ShareOfExcess(rate: real, notional: real, group: real)
    requires group > 0.0
    ensures Times(rate, notional / group) == Times(rate / group, notional)
  {
    var share := notional / group;
    var unit := rate / group;
    assert Times(share, group) == notional && Times(unit, group) == rate;
    assert Times(rate, share) == Times(Times(unit, group), share);
    assert Times(Times(unit, group), share) == Times(unit, Times(share, group));
  }

  /** Every charge but the commission is the unit rate times the notional; it succeeds exactly when its inputs are
      there or there is nothing to charge; and the flag says whether the group breaches the cap. */
  lemma ChargeIsLinear(c: Component, pow: Power, t: Trade, group: real)
    requires ValidComponent(c) && ValidTrade(t)
    ensures ChargeOf(c, pow, t, group).Success? <==> Notional(t) == 0.0 || InputsPresent(c, t)
    ensures ChargeOf(c, pow, t, group).Success? && !c.FixedCommission? ==>
              ChargeOf(c, pow, t, group).value.amount == Times(UnitRate(c, pow, t, group), Notional(t))
    ensures ChargeOf(c, pow, t, group).Success? ==>
              (ChargeOf(c, pow, t, group).value.flagged <==> Notional(t) != 0.0 && Breaches(c, t, group))
  {
    hide Times, RateBps, PenaltyOn, ImpactRate, SpreadRate;
    TimesByZero(UnitRate(c, pow, t, group));
    TimesByZero(Notional(t));
    if c.AdvParticipation? && t.advNotional.Some? {
      NonNegative(c.maxParticipation, t.advNotional.value);
    }
    if c.AdvParticipation? && c.penaltyBps.Some? && t.advNotional.Some? && group > 0.0 {
      ShareOfExcess(PenaltyOn(c.penaltyBps.value, group - Times(c.maxParticipation, t.advNotional.value)), Notional(t), group);
    }
  }

  // ---------------------------------------------------------------- one trade through the stack

  type Amounts = map<Bucket, real>

  const NoAmounts: Amounts :=
    map[Commission := 0.0, Spread := 0.0, Linear := 0.0, Impact := 0.0, ParticipationPenalty := 0.0]

  function Add(a: Amounts, b: Bucket, x: real): Amounts {
    a[b := At(a, b) + x]
  }

  /** The bucket amounts and flag of the first n components, before any modifier. */
  function StackCharges(cs: seq<Component>, n: nat, pow: Power, t: Trade, group: real): Result<(Amounts, bool), CostError>
    requires n <= |cs| && AllComponentsValid(cs) && ValidTrade(t)
  {
    if n == 0 then Success((NoAmounts, false)) else
    match StackCharges(cs, n - 1, pow, t, group)
    case Failure(e) => Failure(e)
    case Success((amounts, flagged)) =>
      match ChargeOf(cs[n - 1], pow, t, group)
      case Failure(e) => Failure(e)
      case Success(charge) => Success((Add(amounts, cs[n - 1].BucketOf(), charge.amount), flagged || charge.flagged))
  }

  function RegionMultiplier(s: Stack, region: Option<string>): real {
    if region.Some? && region.value in s.regionMultipliers then s.regionMultipliers[region.value] else 1.0
  }

  /** A bucket named twice in the scaling list is scaled twice. */
  function SizeFactor(buckets: seq<Bucket>, b: Bucket, multiplier: real): real {
    if buckets == [] then 1.0 else
    var n := |buckets| - 1;
    if buckets[n] == b then Times(SizeFactor(buckets[..n], b, multiplier), multiplier)
    else SizeFactor(buckets[..n], b, multiplier)
  }

  function SizeMultiplier(s: Stack, pow: Power, aum: real): real
    requires ValidStack(s)
  {
    if s.sizeScaling.None? then 1.0
    else pow(aum / s.sizeScaling.value.referenceAum, s.sizeScaling.value.exponent)
  }

  /** The modifier of one bucket: the regional multiplier, then the size hook. */
  function Modifier(s: Stack, pow: Power, region: Option<string>, aum: Option<real>, b: Bucket): real
    requires ValidStack(s)
  {
    if s.sizeScaling.None? || aum.None? then RegionMultiplier(s, region)
    else Times(RegionMultiplier(s, region), SizeFactor(s.sizeScaling.value.appliesTo, b, SizeMultiplier(s, pow, aum.value)))
  }

  function Modified(s: Stack, pow: Power, region: Option<string>, aum: Option<real>, a: Amounts): Amounts
    requires ValidStack(s)
  {
    map b | b in a :: Times(Modifier(s, pow, region, aum, b), a[b])
  }

  datatype TradeCost = TradeCost(trade: Trade, amounts: Amounts, flagged: bool)

  /** The price of one trade within a group. */
  function Price(s: Stack, pow: Power, aum: Option<real>, t: Trade, group: real): Result<TradeCost, CostError>
    requires ValidStack(s) && ValidTrade(t)
  {
    match StackCharges(s.components, |s.components|, pow, t, group)
    case Failure(e) => Failure(e)
    case Success((amounts, flagged)) =>
      if s.sizeScaling.Some? && aum.None? then Failure(MissingInput)
      else Success(TradeCost(t, Modified(s, pow, t.region, aum, amounts), flagged))
  }

  /** Assets under management, where given, are positive. */
  predicate ValidAum(aum: Option<real>) {
    aum.Some? ==> aum.value > 0.0
  }

  /** Prices one trade. The refusals of a negative charge, and of a negative bucket, are unreachable. */
  method PriceTrade(s: Stack, pow: Power, aum: Option<real>, t: Trade, group: real) returns (r: Result<TradeCost, CostError>)
    requires ValidStack(s) && ValidTrade(t) && PowerContract(pow) && ValidAum(aum) && group >= 0.0
    ensures r == Price(s, pow, aum, t, group)
  {
    hide ChargeOf, SizeMultiplier, PowerContract;
    var amounts, flagged := NoAmounts, false;
    for i := 0 to |s.components|
      invariant StackCharges(s.components, i, pow, t, group) == Success((amounts, flagged))
    {
      var c := s.components[i];
      var charge := ChargeOf(c, pow, t, group);
      if charge.Failure? {
        FailureSticks(s.components, i + 1, |s.components|, pow, t, group);
        return Failure(charge.error);
      }
      ChargeNonNegative(c, pow, t, group);
      if charge.value.amount < 0.0 {
        assert false;
      }
      amounts := Add(amounts, c.BucketOf(), charge.value.amount);
      flagged := flagged || charge.value.flagged;
    }
    if s.sizeScaling.Some? && aum.None? {
      return Failure(MissingInput);
    }
    var scaled := map b | b in amounts :: Times(RegionMultiplier(s, t.region), amounts[b]);
    if s.sizeScaling.Some? {
      scaled := ScaleBuckets(scaled, s.sizeScaling.value.appliesTo, SizeMultiplier(s, pow, aum.value));
    }
    ModifierSplits(s, pow, t.region, aum, amounts, scaled);
    r := Success(TradeCost(t, scaled, flagged));
    CostsNonNegative(s, pow, aum, t, group);
    if exists b :: b in scaled && scaled[b] < 0.0 {
      assert false;
    }
  }

  lemma {:induction false} FailureSticks(cs: seq<Component>, n: nat, m: nat, pow: Power, t: Trade, group: real)
    requires n <= m <= |cs| && AllComponentsValid(cs) && ValidTrade(t) && StackCharges(cs, n, pow, t, group).Failure?
    ensures StackCharges(cs, m, pow, t, group) == StackCharges(cs, n, pow, t, group)
    decreases m - n
  {
    hide ChargeOf;
    if n < m {
      FailureSticks(cs, n, m - 1, pow, t, group);
    }
  }

  function Scaled(a: Amounts, buckets: seq<Bucket>, multiplier: real): Amounts {
    map b | b in a :: Times(SizeFactor(buckets, b, multiplier), a[b])
  }

  /** Multiplies each listed bucket in place, once per mention. */
  method ScaleBuckets(a: Amounts, buckets: seq<Bucket>, multiplier: real) returns (r: Amounts)
    ensures r == Scaled(a, buckets, multiplier)
  {
    r := a;
    NothingScaled(a, multiplier);
    for i := 0 to |buckets|
      invariant r == Scaled(a, buckets[..i], multiplier)
    {
      var b := buckets[i];
      assert buckets[..i + 1][..i] == buckets[..i];
      OneScaled(a, buckets[..i + 1], multiplier);
      if b in r {
        r := r[b := Times(multiplier, r[b])];
      }
    }
    assert buckets[..|buckets|] == buckets;
  }

  lemma NothingScaled(a: Amounts, multiplier: real)
    ensures Scaled(a, [], multiplier) == a
  {
  }

  lemma OneScaled(a: Amounts, buckets: seq<Bucket>, multiplier: real)
    requires buckets != []
    ensures var n := |buckets| - 1;
            var before := Scaled(a, buckets[..n], multiplier);
            Scaled(a, buckets, multiplier)
              == if buckets[n] in before then before[buckets[n] := Times(multiplier, before[buckets[n]])] else before
  {
    var n := |buckets| - 1;
    forall b | b in a
      ensures Times(Times(SizeFactor(buckets[..n], b, multiplier), multiplier), a[b])
           == Times(multiplier, Times(SizeFactor(buckets[..n], b, multiplier), a[b]))
    {
      Reorder(SizeFactor(buckets[..n], b, multiplier), multiplier, a[b]);
    }
  }

  lemma Reorder(x: real, y: real, z: real)
    ensures Times(Times(x, y), z) == Times(y, Times(x, z))
  {
  }

  lemma ModifierSplits(s: Stack, pow: Power, region: Option<string>, aum: Option<real>, a: Amounts, scaled: Amounts)
    requires ValidStack(s) && (s.sizeScaling.Some? ==> aum.Some?)
    requires var regional := map b | b in a :: Times(RegionMultiplier(s, region), a[b]);
             scaled == if s.sizeScaling.None? then regional
                       else Scaled(regional, s.sizeScaling.value.appliesTo, SizeMultiplier(s, pow, aum.value))
    ensures scaled == Modified(s, pow, region, aum, a)
  {
    hide Times, RegionMultiplier, SizeFactor, SizeMultiplier;
    if s.sizeScaling.Some? {
      var m := RegionMultiplier(s, region);
      forall b | b in a
        ensures scaled[b] == Modified(s, pow, region, aum, a)[b]
      {
        Reorder(m, SizeFactor(s.sizeScaling.value.appliesTo, b, SizeMultiplier(s, pow, aum.value)), a[b]);
      }
    }
  }

  // ---------------------------------------------------------------- a trade's price is linear in its notional

  /** The stack's charge per unit of notional in one bucket. */
  function UnitAmount(cs: seq<Component>, n: nat, pow: Power, t: Trade, group: real, b: Bucket): real
    requires n <= |cs|
  {
    if n == 0 then 0.0
    else UnitAmount(cs, n - 1, pow, t, group, b)
         + if cs[n - 1].BucketOf() == b then UnitRate(cs[n - 1], pow, t, group) else 0.0
  }

  ghost predicate AnyBreach(cs: seq<Component>, n: nat, t: Trade, group: real)
    requires n <= |cs|
  {
    exists i :: 0 <= i < n && Breaches(cs[i], t, group)
  }

  ghost predicate AllInputs(cs: seq<Component>, n: nat, t: Trade)
    requires n <= |cs|
  {
    forall i :: 0 <= i < n ==> InputsPresent(cs[i], t)
  }

  lemma {:induction false} StackIsLinear(cs: seq<Component>, n: nat, pow: Power, t: Trade, group: real)
    requires n <= |cs| && AllComponentsValid(cs) && ValidTrade(t)
    ensures StackCharges(cs, n, pow, t, group).Success? <==> Notional(t) == 0.0 || AllInputs(cs, n, t)
    ensures StackCharges(cs, n, pow, t, group).Success? ==>
              var (amounts, flagged) := StackCharges(cs, n, pow, t, group).value;
              && amounts.Keys == NoAmounts.Keys
              && (forall b :: b in amounts && b != Commission ==>
                    amounts[b] == Times(UnitAmount(cs, n, pow, t, group, b), Notional(t)))
              && (flagged <==> Notional(t) != 0.0 && AnyBreach(cs, n, t, group))
  {
    hide Times, ChargeOf, UnitRate, Notional, InputsPresent, Breaches;
    if n == 0 {
      TimesByZero(Notional(t));
    } else {
      StackIsLinear(cs, n - 1, pow, t, group);
      ChargeIsLinear(cs[n - 1], pow, t, group);
      BucketsDiffer(cs[n - 1]);
      if StackCharges(cs, n, pow, t, group).Success? {
        forall b | b in NoAmounts && b != Commission
          ensures Times(UnitAmount(cs, n, pow, t, group, b), Notional(t))
               == Times(UnitAmount(cs, n - 1, pow, t, group, b), Notional(t))
                  + if cs[n - 1].BucketOf() == b then Times(UnitRate(cs[n - 1], pow, t, group), Notional(t)) else 0.0
        {
          AddRates(UnitAmount(cs, n - 1, pow, t, group, b), UnitRate(cs[n - 1], pow, t, group), Notional(t));
        }
        assert AnyBreach(cs, n, t, group) <==> AnyBreach(cs, n - 1, t, group) || Breaches(cs[n - 1], t, group);
      }
    }
  }

  lemma BucketsDiffer(c: Component)
    ensures c.BucketOf() == Commission <==> c.FixedCommission?
    ensures c.BucketOf() in NoAmounts
  {
  }

  lemma AddRates(x: real, y: real, n: real)
    ensures Times(x + y, n) == Times(x, n) + Times(y, n)
  {
  }

  /** The modified charge per unit of notional. */
  function GroupRate(s: Stack, pow: Power, aum: Option<real>, t: Trade, group: real, b: Bucket): real
    requires ValidStack(s)
  {
    Times(Modifier(s, pow, t.region, aum, b), UnitAmount(s.components, |s.components|, pow, t, group, b))
  }

  lemma PriceIsLinear(s: Stack, pow: Power, aum: Option<real>, t: Trade, group: real)
    requires ValidStack(s) && ValidTrade(t)
    ensures Price(s, pow, aum, t, group).Success?
       <==> (Notional(t) == 0.0 || AllInputs(s.components, |s.components|, t)) && (s.sizeScaling.Some? ==> aum.Some?)
    ensures Price(s, pow, aum, t, group).Success? ==>
              var cost := Price(s, pow, aum, t, group).value;
              && cost.trade == t && cost.amounts.Keys == NoAmounts.Keys
              && (forall b :: b in cost.amounts && b != Commission ==>
                    cost.amounts[b] == Times(GroupRate(s, pow, aum, t, group, b), Notional(t)))
              && (cost.flagged <==> Notional(t) != 0.0 && AnyBreach(s.components, |s.components|, t, group))
  {
    hide Times, Notional, Modifier, UnitAmount, StackCharges;
    StackIsLinear(s.components, |s.components|, pow, t, group);
    if Price(s, pow, aum, t, group).Success? {
      var raw := StackCharges(s.components, |s.components|, pow, t, group).value.0;
      forall b | b in raw && b != Commission
        ensures Times(Modifier(s, pow, t.region, aum, b), raw[b]) == Times(GroupRate(s, pow, aum, t, group, b), Notional(t))
      {
        Associate(Modifier(s, pow, t.region, aum, b), UnitAmount(s.components, |s.components|, pow, t, group, b), Notional(t));
      }
    }
  }

  // ---------------------------------------------------------------- no charge is negative

  lemma UnitRateNonNegative(c: Component, pow: Power, t: Trade, group: real)
    requires ValidComponent(c) && ValidTrade(t) && PowerContract(pow) && group >= 0.0
    ensures UnitRate(c, pow, t, group) >= 0.0
  {
    match c
    case FixedCommission(_) =>
    case HalfSpread(fraction) =>
      if t.spreadBps.Some? {
        NonNegative(fraction, t.spreadBps.value);
        NonNegative(fraction * t.spreadBps.value, BPS);
      }
    case LinearCost(_, _) =>
      NonNegative(RateBps(c, t.region), BPS);
    case MarketImpact(coefficient, exponent) =>
      if t.advNotional.Some? && t.advNotional.value > 0.0 {
        QuotientNonNegative(group, t.advNotional.value);
        NonNegative(coefficient, BPS);
        NonNegative(coefficient * BPS, pow(group / t.advNotional.value, exponent));
      }
    case AdvParticipation(maximum, penalty) =>
      if t.advNotional.Some? && penalty.Some? && group > 0.0 {
        PenaltyNonNegative(penalty.value, group - Times(maximum, t.advNotional.value), group);
      }
  }

  lemma QuotientNonNegative(x: real, y: real)
    requires x >= 0.0 && y > 0.0
    ensures x / y >= 0.0
  {
  }

  lemma PenaltyNonNegative(penaltyBps: real, excess: real, group: real)
    requires penaltyBps >= 0.0 && group > 0.0
    ensures excess > 0.0 ==> PenaltyOn(penaltyBps, excess) / group >= 0.0
  {
    if excess > 0.0 {
      NonNegative(penaltyBps, BPS);
      NonNegative(penaltyBps * BPS, excess);
      QuotientNonNegative(PenaltyOn(penaltyBps, excess), group);
    }
  }

  lemma ChargeNonNegative(c: Component, pow: Power, t: Trade, group: real)
    requires ValidComponent(c) && ValidTrade(t) && PowerContract(pow) && group >= 0.0
    ensures ChargeOf(c, pow, t, group).Success? ==> ChargeOf(c, pow, t, group).value.amount >= 0.0
  {
    ChargeIsLinear(c, pow, t, group);
    UnitRateNonNegative(c, pow, t, group);
    NonNegative(UnitRate(c, pow, t, group), Notional(t));
    hide Times, UnitRate, Notional;
    if !c.FixedCommission? {
      hide ChargeOf;
    }
  }

  ghost predicate AllNonNegative(a: Amounts) {
    forall b :: b in a ==> a[b] >= 0.0
  }

  /** Every charge a component makes, and every bucket it is added to, is at least zero. */
  lemma {:induction false} StackNonNegative(cs: seq<Component>, n: nat, pow: Power, t: Trade, group: real)
    requires n <= |cs| && AllComponentsValid(cs) && ValidTrade(t) && PowerContract(pow) && group >= 0.0
    ensures StackCharges(cs, n, pow, t, group).Success? ==> AllNonNegative(StackCharges(cs, n, pow, t, group).value.0)
  {
    hide ChargeOf, PowerContract;
    if n > 0 {
      StackNonNegative(cs, n - 1, pow, t, group);
      ChargeNonNegative(cs[n - 1], pow, t, group);
    }
  }

  lemma {:induction false} SizeFactorNonNegative(buckets: seq<Bucket>, b: Bucket, multiplier: real)
    requires multiplier >= 0.0
    ensures SizeFactor(buckets, b, multiplier) >= 0.0
    decreases |buckets|
  {
    hide Times;
    if buckets != [] {
      SizeFactorNonNegative(buckets[..|buckets| - 1], b, multiplier);
      NonNegative(SizeFactor(buckets[..|buckets| - 1], b, multiplier), multiplier);
    }
  }

  lemma ModifierNonNegative(s: Stack, pow: Power, region: Option<string>, aum: Option<real>, b: Bucket)
    requires ValidStack(s) && PowerContract(pow) && (aum.Some? ==> aum.value >= 0.0)
    ensures Modifier(s, pow, region, aum, b) >= 0.0
  {
    hide Times, SizeFactor;
    if s.sizeScaling.Some? && aum.Some? {
      QuotientNonNegative(aum.value, s.sizeScaling.value.referenceAum);
      SizeFactorNonNegative(s.sizeScaling.value.appliesTo, b, SizeMultiplier(s, pow, aum.value));
      NonNegative(RegionMultiplier(s, region), SizeFactor(s.sizeScaling.value.appliesTo, b, SizeMultiplier(s, pow, aum.value)));
    }
  }

  /** Costs are at least zero, before and after the modifiers, so no price is refused as negative. */
  lemma CostsNonNegative(s: Stack, pow: Power, aum: Option<real>, t: Trade, group: real)
    requires ValidStack(s) && ValidTrade(t) && PowerContract(pow) && group >= 0.0 && (aum.Some? ==> aum.value >= 0.0)
    ensures forall i :: 0 <= i < |s.components| && ChargeOf(s.components[i], pow, t, group).Success? ==>
              ChargeOf(s.components[i], pow, t, group).value.amount >= 0.0
    ensures Price(s, pow, aum, t, group).Success? ==> AllNonNegative(Price(s, pow, aum, t, group).value.amounts)
  {
    hide Times, ChargeOf, Modifier, PowerContract, StackCharges;
    forall i | 0 <= i < |s.components| && ChargeOf(s.components[i], pow, t, group).Success?
      ensures ChargeOf(s.components[i], pow, t, group).value.amount >= 0.0
    {
      ChargeNonNegative(s.components[i], pow, t, group);
    }
    StackNonNegative(s.components, |s.components|, pow, t, group);
    if Price(s, pow, aum, t, group).Success? {
      var raw := StackCharges(s.components, |s.components|, pow, t, group).value.0;
      forall b | b in raw ensures Times(Modifier(s, pow, t.region, aum, b), raw[b]) >= 0.0 {
        ModifierNonNegative(s, pow, t.region, aum, b);
        NonNegative(Modifier(s, pow, t.region, aum, b), raw[b]);
      }
    }
  }

  // ---------------------------------------------------------------- trade lists

  predicate AllTradesValid(trades: seq<Trade>) {
    forall i :: 0 <= i < |trades| ==> ValidTrade(trades[i])
  }

  function KeyOf(t: Trade): (Id, int) {
    (t.securityId, t.tradeDate)
  }

  /** The gross notional traded under one (security, date). */
  function GroupGross(trades: seq<Trade>, key: (Id, int)): real {
    if trades == [] then 0.0 else
    var n := |trades| - 1;
    GroupGross(trades[..n], key) + if KeyOf(trades[n]) == key then Notional(trades[n]) else 0.0
  }

  lemma {:induction false} GrossNonNegative(trades: seq<Trade>, key: (Id, int))
    ensures GroupGross(trades, key) >= 0.0
    decreases |trades|
  {
    if trades != [] {
      GrossNonNegative(trades[..|trades| - 1], key);
    }
  }

  /** Rows of one group agree on the average daily volume. */
  predicate Consistent(trades: seq<Trade>) {
    forall i, j :: 0 <= i < j < |trades| && KeyOf(trades[i]) == KeyOf(trades[j]) ==>
      trades[i].advNotional == trades[j].advNotional
  }

  predicate Traded(trades: seq<Trade>, k: (Id, int)) {
    exists i :: 0 <= i < |trades| && KeyOf(trades[i]) == k
  }

  /** The totals, and the volumes, of the rows so far. */
  ghost predicate Totalled(totals: map<(Id, int), real>, advs: map<(Id, int), Option<real>>, trades: seq<Trade>) {
    && Consistent(trades)
    && (forall k :: k in totals <==> Traded(trades, k))
    && (forall k :: k in advs <==> Traded(trades, k))
    && (forall k :: At(totals, k) == GroupGross(trades, k))
    && (forall i :: 0 <= i < |trades| ==> KeyOf(trades[i]) in advs && advs[KeyOf(trades[i])] == trades[i].advNotional)
  }

  lemma TradedAppend(trades: seq<Trade>, t: Trade, k: (Id, int))
    ensures Traded(trades + [t], k) <==> Traded(trades, k) || k == KeyOf(t)
  {
    if Traded(trades, k) {
      var i :| 0 <= i < |trades| && KeyOf(trades[i]) == k;
      assert (trades + [t])[i] == trades[i];
    }
    assert (trades + [t])[|trades|] == t;
  }

  lemma ConsistentAppend(advs: map<(Id, int), Option<real>>, trades: seq<Trade>, t: Trade)
    requires Consistent(trades)
    requires forall k :: k in advs <==> Traded(trades, k)
    requires forall i :: 0 <= i < |trades| ==> KeyOf(trades[i]) in advs && advs[KeyOf(trades[i])] == trades[i].advNotional
    ensures Consistent(trades + [t]) <==> (KeyOf(t) in advs ==> advs[KeyOf(t)] == t.advNotional)
  {
    var longer := trades + [t];
    assert forall i :: 0 <= i < |trades| ==> longer[i] == trades[i];
    assert longer[|trades|] == t;
    if KeyOf(t) in advs && advs[KeyOf(t)] != t.advNotional {
      var i :| 0 <= i < |trades| && KeyOf(trades[i]) == KeyOf(t);
      assert longer[i].advNotional != longer[|trades|].advNotional;
    } else {
      forall i | 0 <= i < |trades| && KeyOf(trades[i]) == KeyOf(t) ensures trades[i].advNotional == t.advNotional {
        assert KeyOf(trades[i]) in advs;
      }
    }
  }

  lemma GrossAppend(trades: seq<Trade>, t: Trade)
    ensures forall k :: GroupGross(trades + [t], k) == GroupGross(trades, k) + if KeyOf(t) == k then Notional(t) else 0.0
  {
    hide Notional;
    assert (trades + [t])[..|trades|] == trades;
  }

  lemma TotalOne(totals: map<(Id, int), real>, advs: map<(Id, int), Option<real>>, trades: seq<Trade>, t: Trade)
    requires Totalled(totals, advs, trades)
    requires KeyOf(t) in advs ==> advs[KeyOf(t)] == t.advNotional
    ensures Totalled(totals[KeyOf(t) := At(totals, KeyOf(t)) + Notional(t)], advs[KeyOf(t) := t.advNotional], trades + [t])
  {
    ConsistentAppend(advs, trades, t);
    GrossAppend(trades, t);
    hide Notional, Consistent, Traded, GroupGross;
    forall k ensures Traded(trades + [t], k) <==> Traded(trades, k) || k == KeyOf(t) {
      TradedAppend(trades, t, k);
    }
    forall i | 0 <= i < |trades + [t]|
      ensures KeyOf((trades + [t])[i]) in advs[KeyOf(t) := t.advNotional]
              && advs[KeyOf(t) := t.advNotional][KeyOf((trades + [t])[i])] == (trades + [t])[i].advNotional
    {
      assert i < |trades| ==> (trades + [t])[i] == trades[i];
    }
  }

  lemma NothingTotalled()
    ensures Totalled(map[], map[], [])
  {
  }

  lemma ConsistentPrefix(trades: seq<Trade>, n: nat)
    requires n <= |trades|
    ensures Consistent(trades) ==> Consistent(trades[..n])
  {
  }

  method GroupGrossNotionals(trades: seq<Trade>) returns (r: Result<map<(Id, int), real>, CostError>)
    ensures r.Success? <==> Consistent(trades)
    ensures r.Success? ==> forall k :: k in r.value <==> Traded(trades, k)
    ensures r.Success? ==> forall k :: k in r.value ==> r.value[k] == GroupGross(trades, k)
    ensures r.Failure? ==> r.error == InvalidInput
  {
    hide Notional, Consistent, Traded, GroupGross;
    var totals: map<(Id, int), real> := map[];
    var advs: map<(Id, int), Option<real>> := map[];
    NothingTotalled();
    for n := 0 to |trades|
      invariant Totalled(totals, advs, trades[..n])
    {
      var trade := trades[n];
      var key := KeyOf(trade);
      assert trades[..n + 1] == trades[..n] + [trade];
      if key in advs && advs[key] != trade.advNotional {
        ConsistentAppend(advs, trades[..n], trade);
        ConsistentPrefix(trades, n + 1);
        return Failure(InvalidInput);
      }
      TotalOne(totals, advs, trades[..n], trade);
      totals := totals[key := At(totals, key) + Notional(trade)];
      advs := advs[key := trade.advNotional];
    }
    assert trades[..|trades|] == trades;
    r := Success(totals);
  }

  predicate NeedsGroupTotals(s: Stack) {
    exists i :: 0 <= i < |s.components| && (s.components[i].MarketImpact? || s.components[i].AdvParticipation?)
  }

  /** The group notional a row is priced with: its own when no component needs totals. */
  function GroupFor(s: Stack, all: seq<Trade>, t: Trade): real {
    if NeedsGroupTotals(s) then GroupGross(all, KeyOf(t)) else Notional(t)
  }

  function PriceIn(s: Stack, pow: Power, aum: Option<real>, all: seq<Trade>, t: Trade): Result<TradeCost, CostError>
    requires ValidStack(s) && ValidTrade(t)
  {
    Price(s, pow, aum, t, GroupFor(s, all, t))
  }

  ghost predicate AllPrice(s: Stack, pow: Power, aum: Option<real>, all: seq<Trade>, part: seq<Trade>)
    requires ValidStack(s) && AllTradesValid(part)
  {
    forall i :: 0 <= i < |part| ==> PriceIn(s, pow, aum, all, part[i]).Success?
  }

  ghost function Priced(s: Stack, pow: Power, aum: Option<real>, all: seq<Trade>, part: seq<Trade>): (costs: seq<TradeCost>)
    requires ValidStack(s) && AllTradesValid(part) && AllPrice(s, pow, aum, all, part)
    ensures |costs| == |part|
  {
    seq(|part|, i requires 0 <= i < |part| => PriceIn(s, pow, aum, all, part[i]).value)
  }

  ghost predicate Prices(s: Stack, pow: Power, aum: Option<real>, trades: seq<Trade>)
    requires ValidStack(s) && AllTradesValid(trades)
  {
    (NeedsGroupTotals(s) ==> Consistent(trades)) && AllPrice(s, pow, aum, trades, trades)
  }

  /** Row i is the first that cannot be priced. */
  ghost predicate FirstRefused(s: Stack, pow: Power, aum: Option<real>, trades: seq<Trade>, i: nat, e: CostError)
    requires ValidStack(s) && AllTradesValid(trades)
  {
    && i < |trades| && PriceIn(s, pow, aum, trades, trades[i]) == Failure(e)
    && forall j :: 0 <= j < i ==> PriceIn(s, pow, aum, trades, trades[j]).Success?
  }

  /** Prices a trade list row by row, off same-day group totals where a component needs them. */
  method PriceTrades(s: Stack, pow: Power, aum: Option<real>, trades: seq<Trade>) returns (r: Result<seq<TradeCost>, CostError>)
    requires ValidStack(s) && AllTradesValid(trades) && PowerContract(pow) && ValidAum(aum)
    ensures r.Success? <==> Prices(s, pow, aum, trades)
    ensures r.Success? ==> r.value == Priced(s, pow, aum, trades, trades)
    ensures r.Failure? ==> if NeedsGroupTotals(s) && !Consistent(trades) then r.error == InvalidInput
                           else exists i :: FirstRefused(s, pow, aum, trades, i, r.error)
  {
    hide Price, GroupGross, Consistent, ValidStack, ValidTrade, PowerContract;
    var groups: map<(Id, int), real> := map[];
    if NeedsGroupTotals(s) {
      var totals := GroupGrossNotionals(trades);
      if totals.Failure? {
        return Failure(totals.error);
      }
      groups := totals.value;
    }
    var costs := [];
    for i := 0 to |trades|
      invariant |costs| == i
      invariant forall j :: 0 <= j < i ==> PriceIn(s, pow, aum, trades, trades[j]) == Success(costs[j])
    {
      var group := if NeedsGroupTotals(s) then groups[KeyOf(trades[i])] else Notional(trades[i]);
      GrossNonNegative(trades, KeyOf(trades[i]));
      var cost := PriceTrade(s, pow, aum, trades[i], group);
      assert cost == PriceIn(s, pow, aum, trades, trades[i]);
      if cost.Failure? {
        assert FirstRefused(s, pow, aum, trades, i, cost.error);
        return Failure(cost.error);
      }
      costs := costs + [cost.value];
    }
    assert costs == Priced(s, pow, aum, trades, trades);
    r := Success(costs);
  }

  // ---------------------------------------------------------------- slicing

  /** Same security, date, region, volume and spread: only the notional may differ. */
  predicate SameTerms(t: Trade, u: Trade) {
    u == t.(signedNotional := u.signedNotional)
  }

  function KeyTotal(costs: seq<TradeCost>, key: (Id, int), b: Bucket): real {
    if costs == [] then 0.0 else
    var n := |costs| - 1;
    KeyTotal(costs[..n], key, b) + if KeyOf(costs[n].trade) == key then At(costs[n].amounts, b) else 0.0
  }

  lemma {:induction false} GrossConcat(a: seq<Trade>, b: seq<Trade>, key: (Id, int))
    ensures GroupGross(a + b, key) == GroupGross(a, key) + GroupGross(b, key)
    decreases |b|
  {
    hide Notional;
    if b == [] {
      assert a + b == a;
    } else {
      var n := |b| - 1;
      GrossConcat(a, b[..n], key);
      assert (a + b)[..|a + b| - 1] == a + b[..n];
    }
  }

  lemma {:induction false} TotalConcat(a: seq<TradeCost>, b: seq<TradeCost>, key: (Id, int), bucket: Bucket)
    ensures KeyTotal(a + b, key, bucket) == KeyTotal(a, key, bucket) + KeyTotal(b, key, bucket)
    decreases |b|
  {
    if b == [] {
      assert a + b == a;
    } else {
      var n := |b| - 1;
      TotalConcat(a, b[..n], key, bucket);
      assert (a + b)[..|a + b| - 1] == a + b[..n];
    }
  }

  /** Slices replace a trade: at least one, on the trade's terms, with its total absolute notional. */
  ghost predicate Slices(t: Trade, rows: seq<Trade>) {
    && rows != []
    && (forall i :: 0 <= i < |rows| ==> SameTerms(t, rows[i]))
    && GroupGross(rows, KeyOf(t)) == Notional(t)
  }

  lemma {:induction false} OtherKey(rows: seq<Trade>, key: (Id, int))
    requires forall i :: 0 <= i < |rows| ==> KeyOf(rows[i]) != key
    ensures GroupGross(rows, key) == 0.0
    decreases |rows|
  {
    if rows != [] {
      OtherKey(rows[..|rows| - 1], key);
    }
  }

  lemma SlicedGross(pre: seq<Trade>, t: Trade, rows: seq<Trade>, post: seq<Trade>, key: (Id, int))
    requires Slices(t, rows)
    ensures GroupGross(pre + rows + post, key) == GroupGross(pre + [t] + post, key)
  {
    hide Notional;
    GrossConcat(pre + rows, post, key);
    GrossConcat(pre, rows, key);
    GrossConcat(pre + [t], post, key);
    GrossConcat(pre, [t], key);
    assert [t][..0] == [];
    if key != KeyOf(t) {
      forall i | 0 <= i < |rows| ensures KeyOf(rows[i]) != key { assert SameTerms(t, rows[i]); }
      OtherKey(rows, key);
    }
  }

  /** The rate depends only on the terms. */
  lemma {:induction false} SameUnitAmount(cs: seq<Component>, n: nat, pow: Power, t: Trade, u: Trade, group: real, b: Bucket)
    requires n <= |cs| && SameTerms(t, u)
    ensures UnitAmount(cs, n, pow, t, group, b) == UnitAmount(cs, n, pow, u, group, b)
  {
    if n > 0 {
      SameUnitAmount(cs, n - 1, pow, t, u, group, b);
    }
  }

  /** Without group components the rate does not depend on the group. */
  lemma {:induction false} NoGroupUnitAmount(s: Stack, n: nat, pow: Power, t: Trade, g: real, h: real, b: Bucket)
    requires n <= |s.components| && !NeedsGroupTotals(s)
    ensures UnitAmount(s.components, n, pow, t, g, b) == UnitAmount(s.components, n, pow, t, h, b)
  {
    if n > 0 {
      NoGroupUnitAmount(s, n - 1, pow, t, g, h, b);
    }
  }

  /** A slice is charged at the rate of the trade it replaces. */
  lemma SliceRate(
      s: Stack, pow: Power, aum: Option<real>, whole: seq<Trade>, sliced: seq<Trade>, t: Trade, u: Trade, b: Bucket)
    requires ValidStack(s) && SameTerms(t, u)
    requires GroupGross(whole, KeyOf(t)) == GroupGross(sliced, KeyOf(t))
    ensures GroupRate(s, pow, aum, u, GroupFor(s, sliced, u), b) == GroupRate(s, pow, aum, t, GroupFor(s, whole, t), b)
    ensures AnyBreach(s.components, |s.components|, u, GroupFor(s, sliced, u))
       <==> AnyBreach(s.components, |s.components|, t, GroupFor(s, whole, t))
    ensures AllInputs(s.components, |s.components|, u) <==> AllInputs(s.components, |s.components|, t)
  {
    hide Times, Modifier, UnitRate, Notional, GroupGross, SizeFactor, UnitAmount;
    var n := |s.components|;
    SameUnitAmount(s.components, n, pow, t, u, GroupFor(s, sliced, u), b);
    if !NeedsGroupTotals(s) {
      NoGroupUnitAmount(s, n, pow, t, GroupFor(s, sliced, u), GroupFor(s, whole, t), b);
    }
  }

  /** The slices' total is the rate times their gross. */
  lemma {:induction false} SlicesTotal(
      s: Stack, pow: Power, aum: Option<real>, sliced: seq<Trade>, whole: seq<Trade>, t: Trade, rows: seq<Trade>, b: Bucket)
    requires ValidStack(s) && AllTradesValid(rows) && b != Commission
    requires forall i :: 0 <= i < |rows| ==> SameTerms(t, rows[i])
    requires GroupGross(whole, KeyOf(t)) == GroupGross(sliced, KeyOf(t))
    requires AllPrice(s, pow, aum, sliced, rows)
    ensures KeyTotal(Priced(s, pow, aum, sliced, rows), KeyOf(t), b)
         == Times(GroupRate(s, pow, aum, t, GroupFor(s, whole, t), b), GroupGross(rows, KeyOf(t)))
    decreases |rows|
  {
    hide Times, Notional, Price, GroupRate, GroupFor, ValidTrade, AnyBreach;
    var rate := GroupRate(s, pow, aum, t, GroupFor(s, whole, t), b);
    if rows == [] {
      TimesByZero(rate);
    } else {
      var n := |rows| - 1;
      var u := rows[n];
      SlicesTotal(s, pow, aum, sliced, whole, t, rows[..n], b);
      assert Priced(s, pow, aum, sliced, rows)[..n] == Priced(s, pow, aum, sliced, rows[..n]);
      assert SameTerms(t, u) && PriceIn(s, pow, aum, sliced, u).Success?;
      PriceIsLinear(s, pow, aum, u, GroupFor(s, sliced, u));
      SliceRate(s, pow, aum, whole, sliced, t, u, b);
      assert b in NoAmounts;
      Distribute(rate, GroupGross(rows[..n], KeyOf(t)), Notional(u));
    }
  }

  lemma {:induction false} ForeignTotal(costs: seq<TradeCost>, key: (Id, int), b: Bucket)
    requires forall i :: 0 <= i < |costs| ==> KeyOf(costs[i].trade) != key
    ensures KeyTotal(costs, key, b) == 0.0
    decreases |costs|
  {
    if costs != [] {
      ForeignTotal(costs[..|costs| - 1], key, b);
    }
  }

  lemma PricedConcat(s: Stack, pow: Power, aum: Option<real>, all: seq<Trade>, a: seq<Trade>, b: seq<Trade>)
    requires ValidStack(s) && AllTradesValid(a) && AllTradesValid(b)
    ensures AllTradesValid(a + b)
    ensures AllPrice(s, pow, aum, all, a + b) <==> AllPrice(s, pow, aum, all, a) && AllPrice(s, pow, aum, all, b)
    ensures AllPrice(s, pow, aum, all, a + b) ==>
              Priced(s, pow, aum, all, a + b) == Priced(s, pow, aum, all, a) + Priced(s, pow, aum, all, b)
  {
    hide PriceIn, ValidTrade, ValidStack;
    assert forall i :: 0 <= i < |a| ==> (a + b)[i] == a[i];
    assert forall i :: 0 <= i < |b| ==> (a + b)[|a| + i] == b[i];
    assert forall i :: 0 <= i < |a + b| ==> (a + b)[i] == if i < |a| then a[i] else b[i - |a|];
  }

  /** Rows outside the sliced trade keep their prices. */
  lemma SamePrices(s: Stack, pow: Power, aum: Option<real>, whole: seq<Trade>, sliced: seq<Trade>, part: seq<Trade>)
    requires ValidStack(s) && AllTradesValid(part)
    requires forall k :: GroupGross(whole, k) == GroupGross(sliced, k)
    ensures AllPrice(s, pow, aum, whole, part) <==> AllPrice(s, pow, aum, sliced, part)
    ensures AllPrice(s, pow, aum, whole, part) ==> Priced(s, pow, aum, whole, part) == Priced(s, pow, aum, sliced, part)
  {
    hide Price, GroupGross, ValidTrade, ValidStack;
    forall i | 0 <= i < |part| ensures PriceIn(s, pow, aum, whole, part[i]) == PriceIn(s, pow, aum, sliced, part[i]) {
      assert GroupGross(whole, KeyOf(part[i])) == GroupGross(sliced, KeyOf(part[i]));
    }
  }

  lemma {:induction false} SomeNonZero(rows: seq<Trade>, t: Trade)
    requires forall i :: 0 <= i < |rows| ==> SameTerms(t, rows[i])
    ensures GroupGross(rows, KeyOf(t)) >= 0.0
    ensures GroupGross(rows, KeyOf(t)) == 0.0 <==> forall i :: 0 <= i < |rows| ==> Notional(rows[i]) == 0.0
    decreases |rows|
  {
    if rows != [] {
      SomeNonZero(rows[..|rows| - 1], t);
      assert SameTerms(t, rows[|rows| - 1]);
    }
  }

  /** The trade prices exactly when all its slices do. */
  lemma SlicesPriceTogether(s: Stack, pow: Power, aum: Option<real>, whole: seq<Trade>, sliced: seq<Trade>, t: Trade, rows: seq<Trade>)
    requires ValidStack(s) && ValidTrade(t) && Slices(t, rows) && AllTradesValid(rows)
    requires GroupGross(whole, KeyOf(t)) == GroupGross(sliced, KeyOf(t))
    ensures AllPrice(s, pow, aum, whole, [t]) <==> AllPrice(s, pow, aum, sliced, rows)
  {
    hide Price, GroupGross, Notional, GroupRate, AllInputs, AnyBreach, ValidTrade;
    PriceIsLinear(s, pow, aum, t, GroupFor(s, whole, t));
    SomeNonZero(rows, t);
    assert AllPrice(s, pow, aum, whole, [t]) <==> PriceIn(s, pow, aum, whole, t).Success? by { assert [t][0] == t; }
    forall i | 0 <= i < |rows|
      ensures PriceIn(s, pow, aum, sliced, rows[i]).Success?
         <==> (Notional(rows[i]) == 0.0 || AllInputs(s.components, |s.components|, t)) && (s.sizeScaling.Some? ==> aum.Some?)
    {
      PriceIsLinear(s, pow, aum, rows[i], GroupFor(s, sliced, rows[i]));
      SliceRate(s, pow, aum, whole, sliced, t, rows[i], Spread);
    }
    if Notional(t) == 0.0 {
      assert Notional(rows[0]) == 0.0;
    } else {
      var i :| 0 <= i < |rows| && Notional(rows[i]) != 0.0;
    }
    assert rows[0] == rows[0];
  }

  lemma SlicedConsistent(pre: seq<Trade>, t: Trade, rows: seq<Trade>, post: seq<Trade>)
    requires Slices(t, rows)
    ensures Consistent(pre + [t] + post) <==> Consistent(pre + rows + post)
  {
    var whole, sliced := pre + [t] + post, pre + rows + post;
    hide GroupGross;
    ConsistentMembers(whole);
    ConsistentMembers(sliced);
    assert forall x :: x in whole <==> x in pre || x == t || x in post;
    assert forall x :: x in sliced <==> x in pre || x in rows || x in post;
    assert rows[0] in rows && SameTerms(t, rows[0]);
    assert forall x :: x in rows ==> SameTerms(t, x);
  }

  lemma ConsistentMembers(trades: seq<Trade>)
    ensures Consistent(trades)
       <==> forall x, y :: x in trades && y in trades && KeyOf(x) == KeyOf(y) ==> x.advNotional == y.advNotional
  {
    if Consistent(trades) {
      forall x, y | x in trades && y in trades && KeyOf(x) == KeyOf(y) ensures x.advNotional == y.advNotional {
        var i :| 0 <= i < |trades| && trades[i] == x;
        var j :| 0 <= j < |trades| && trades[j] == y;
        if i < j {
          assert trades[i].advNotional == trades[j].advNotional;
        } else if j < i {
          assert trades[j].advNotional == trades[i].advNotional;
        }
      }
    }
  }

  lemma SlicesValid(t: Trade, rows: seq<Trade>)
    requires ValidTrade(t) && Slices(t, rows)
    ensures AllTradesValid(rows)
  {
    forall i | 0 <= i < |rows| ensures ValidTrade(rows[i]) { assert SameTerms(t, rows[i]); }
  }

  /** Whether the list prices does not depend on slicing. */
  lemma SlicingKeepsRefusals(s: Stack, pow: Power, aum: Option<real>, pre: seq<Trade>, t: Trade, rows: seq<Trade>, post: seq<Trade>)
    requires ValidStack(s) && AllTradesValid(pre) && ValidTrade(t) && AllTradesValid(post) && Slices(t, rows)
    ensures AllTradesValid(pre + [t] + post) && AllTradesValid(pre + rows + post)
    ensures forall k :: GroupGross(pre + [t] + post, k) == GroupGross(pre + rows + post, k)
    ensures Prices(s, pow, aum, pre + [t] + post) <==> Prices(s, pow, aum, pre + rows + post)
  {
    hide Price, PriceIn, ValidTrade, ValidStack, Slices, Consistent, AllPrice, GroupGross, Notional;
    var whole, sliced := pre + [t] + post, pre + rows + post;
    SlicesValid(t, rows);
    forall k ensures GroupGross(whole, k) == GroupGross(sliced, k) { SlicedGross(pre, t, rows, post, k); }
    PricedConcat(s, pow, aum, whole, pre + [t], post);
    PricedConcat(s, pow, aum, whole, pre, [t]);
    PricedConcat(s, pow, aum, sliced, pre + rows, post);
    PricedConcat(s, pow, aum, sliced, pre, rows);
    SamePrices(s, pow, aum, whole, sliced, pre);
    SamePrices(s, pow, aum, whole, sliced, post);
    SlicesPriceTogether(s, pow, aum, whole, sliced, t, rows);
    SlicedConsistent(pre, t, rows, post);
  }

  /** Slicing a trade changes no group's spread, linear, impact or participation total. */
  lemma SlicingInvariant(
      s: Stack, pow: Power, aum: Option<real>, pre: seq<Trade>, t: Trade, rows: seq<Trade>, post: seq<Trade>,
      key: (Id, int), b: Bucket)
    requires ValidStack(s) && AllTradesValid(pre) && ValidTrade(t) && AllTradesValid(post) && Slices(t, rows)
    requires b != Commission
    requires AllTradesValid(pre + [t] + post) && Prices(s, pow, aum, pre + [t] + post)
    ensures AllTradesValid(pre + rows + post) && Prices(s, pow, aum, pre + rows + post)
    ensures KeyTotal(Priced(s, pow, aum, pre + rows + post, pre + rows + post), key, b)
         == KeyTotal(Priced(s, pow, aum, pre + [t] + post, pre + [t] + post), key, b)
  {
    hide Price, PriceIn, ValidTrade, ValidStack, Slices, Consistent, GroupGross, Notional, KeyTotal, AllPrice, Priced;
    var whole, sliced := pre + [t] + post, pre + rows + post;
    SlicingKeepsRefusals(s, pow, aum, pre, t, rows, post);
    SlicesValid(t, rows);
    TotalsSplit(s, pow, aum, whole, pre, [t], post, key, b);
    TotalsSplit(s, pow, aum, sliced, pre, rows, post, key, b);
    SamePrices(s, pow, aum, whole, sliced, pre);
    SamePrices(s, pow, aum, whole, sliced, post);
    if key == KeyOf(t) {
      OneSlice(t);
      SliceList(t, rows);
      SlicesTotal(s, pow, aum, whole, whole, t, [t], b);
      SlicesTotal(s, pow, aum, sliced, whole, t, rows, b);
    } else {
      PricedKeys(s, pow, aum, whole, t, [t], key, b);
      SliceList(t, rows);
      PricedKeys(s, pow, aum, sliced, t, rows, key, b);
    }
  }

  lemma TotalsSplit(
      s: Stack, pow: Power, aum: Option<real>, all: seq<Trade>, pre: seq<Trade>, mid: seq<Trade>, post: seq<Trade>,
      key: (Id, int), b: Bucket)
    requires ValidStack(s) && AllTradesValid(pre) && AllTradesValid(mid) && AllTradesValid(post)
    requires AllTradesValid(pre + mid + post) && AllPrice(s, pow, aum, all, pre + mid + post)
    ensures AllPrice(s, pow, aum, all, pre) && AllPrice(s, pow, aum, all, mid) && AllPrice(s, pow, aum, all, post)
    ensures KeyTotal(Priced(s, pow, aum, all, pre + mid + post), key, b)
         == KeyTotal(Priced(s, pow, aum, all, pre), key, b) + KeyTotal(Priced(s, pow, aum, all, mid), key, b)
            + KeyTotal(Priced(s, pow, aum, all, post), key, b)
  {
    hide PriceIn, ValidTrade, ValidStack, KeyTotal, AllPrice, Priced;
    PricedConcat(s, pow, aum, all, pre + mid, post);
    PricedConcat(s, pow, aum, all, pre, mid);
    TotalConcat(Priced(s, pow, aum, all, pre + mid), Priced(s, pow, aum, all, post), key, b);
    TotalConcat(Priced(s, pow, aum, all, pre), Priced(s, pow, aum, all, mid), key, b);
  }

  lemma OneSlice(t: Trade)
    ensures SameTerms(t, [t][0]) && GroupGross([t], KeyOf(t)) == Notional(t)
  {
    assert [t][..0] == [];
  }

  lemma SliceList(t: Trade, rows: seq<Trade>)
    requires Slices(t, rows)
    ensures forall i :: 0 <= i < |rows| ==> SameTerms(t, rows[i])
    ensures GroupGross(rows, KeyOf(t)) == Notional(t)
  {
  }

  lemma PricedKeys(s: Stack, pow: Power, aum: Option<real>, all: seq<Trade>, t: Trade, rows: seq<Trade>, key: (Id, int), b: Bucket)
    requires ValidStack(s) && AllTradesValid(rows) && AllPrice(s, pow, aum, all, rows)
    requires forall i :: 0 <= i < |rows| ==> SameTerms(t, rows[i])
    requires key != KeyOf(t)
    ensures KeyTotal(Priced(s, pow, aum, all, rows), key, b) == 0.0
  {
    hide Price, ValidTrade, ValidStack, GroupFor;
    var costs := Priced(s, pow, aum, all, rows);
    forall i | 0 <= i < |costs| ensures KeyOf(costs[i].trade) != key {
      assert SameTerms(t, rows[i]);
      PricedTrade(s, pow, aum, rows[i], GroupFor(s, all, rows[i]));
    }
    ForeignTotal(costs, key, b);
  }

  lemma PricedTrade(s: Stack, pow: Power, aum: Option<real>, t: Trade, group: real)
    requires ValidStack(s) && ValidTrade(t) && Price(s, pow, aum, t, group).Success?
    ensures Price(s, pow, aum, t, group).value.trade == t
  {
  }

  /** Either every non-zero slice carries the breach flag the whole trade would carry, or none does. */
  lemma SlicesFlagTogether(
      s: Stack, pow: Power, aum: Option<real>, pre: seq<Trade>, t: Trade, rows: seq<Trade>, post: seq<Trade>, i: nat)
    requires ValidStack(s) && AllTradesValid(pre) && ValidTrade(t) && AllTradesValid(post) && Slices(t, rows)
    requires i < |rows| && ValidTrade(rows[i]) && Notional(rows[i]) != 0.0
    requires PriceIn(s, pow, aum, pre + [t] + post, t).Success? && PriceIn(s, pow, aum, pre + rows + post, rows[i]).Success?
    ensures PriceIn(s, pow, aum, pre + rows + post, rows[i]).value.flagged
       <==> PriceIn(s, pow, aum, pre + [t] + post, t).value.flagged
  {
    hide Price, ValidTrade, ValidStack, GroupRate, AllInputs, AnyBreach, Notional, GroupGross;
    var whole, sliced := pre + [t] + post, pre + rows + post;
    SlicedGross(pre, t, rows, post, KeyOf(t));
    SliceList(t, rows);
    SomeNonZero(rows, t);
    SliceRate(s, pow, aum, whole, sliced, t, rows[i], Spread);
    PriceIsLinear(s, pow, aum, t, GroupFor(s, whole, t));
    PriceIsLinear(s, pow, aum, rows[i], GroupFor(s, sliced, rows[i]));
  }

  // ---------------------------------------------------------------- the exception: commission is per row

  function CommissionRate(cs: seq<Component>, n: nat): real
    requires n <= |cs|
  {
    if n == 0 then 0.0
    else CommissionRate(cs, n - 1) + if cs[n - 1].FixedCommission? then cs[n - 1].perTrade else 0.0
  }

  lemma {:induction false} StackCommission(cs: seq<Component>, n: nat, pow: Power, t: Trade, group: real)
    requires n <= |cs| && AllComponentsValid(cs) && ValidTrade(t)
    requires StackCharges(cs, n, pow, t, group).Success?
    ensures Commission in StackCharges(cs, n, pow, t, group).value.0
    ensures StackCharges(cs, n, pow, t, group).value.0[Commission]
         == if Notional(t) == 0.0 then 0.0 else CommissionRate(cs, n)
  {
    hide Times, Notional, PenaltyOn, ImpactRate, SpreadRate, RateBps;
    if n > 0 {
      StackCommission(cs, n - 1, pow, t, group);
    }
  }

  function NonZeroRows(rows: seq<Trade>): nat {
    if rows == [] then 0 else
    var n := |rows| - 1;
    NonZeroRows(rows[..n]) + if Notional(rows[n]) == 0.0 then 0 else 1
  }

  /** What one non-zero row of a trade's group pays in commission. */
  function RowCommission(s: Stack, pow: Power, aum: Option<real>, t: Trade): real
    requires ValidStack(s)
  {
    Times(Modifier(s, pow, t.region, aum, Commission), CommissionRate(s.components, |s.components|))
  }

  lemma {:induction false} CommissionTotal(s: Stack, pow: Power, aum: Option<real>, all: seq<Trade>, t: Trade, rows: seq<Trade>)
    requires ValidStack(s) && AllTradesValid(rows) && AllPrice(s, pow, aum, all, rows)
    requires forall i :: 0 <= i < |rows| ==> SameTerms(t, rows[i])
    ensures KeyTotal(Priced(s, pow, aum, all, rows), KeyOf(t), Commission)
         == Times(RowCommission(s, pow, aum, t), NonZeroRows(rows) as real)
    decreases |rows|
  {
    hide Times, Notional, Modifier, StackCharges, GroupFor, ValidTrade, CommissionRate;
    if rows == [] {
      TimesByZero(RowCommission(s, pow, aum, t));
    } else {
      var n := |rows| - 1;
      var u := rows[n];
      CommissionTotal(s, pow, aum, all, t, rows[..n]);
      assert Priced(s, pow, aum, all, rows)[..n] == Priced(s, pow, aum, all, rows[..n]);
      assert SameTerms(t, u) && PriceIn(s, pow, aum, all, u).Success?;
      StackCommission(s.components, |s.components|, pow, u, GroupFor(s, all, u));
      OneMore(RowCommission(s, pow, aum, t), NonZeroRows(rows[..n]) as real);
      TimesByZero(Modifier(s, pow, t.region, aum, Commission));
    }
  }

  lemma FactorsEqual(x: real, a: real, b: real)
    ensures Times(x, a) == Times(x, b) <==> x == 0.0 || a == b
  {
    if x != 0.0 {
      assert Times(x, a) / x == a && Times(x, b) / x == b;
    } else {
      TimesByZero(a);
      TimesByZero(b);
    }
  }

  /** A commission is charged per non-zero row, so slicing keeps its total exactly when it is free or the trade is
      replaced by as many non-zero rows as it counts for itself. */
  lemma SlicedCommission(
      s: Stack, pow: Power, aum: Option<real>, pre: seq<Trade>, t: Trade, rows: seq<Trade>, post: seq<Trade>)
    requires ValidStack(s) && AllTradesValid(pre) && ValidTrade(t) && AllTradesValid(post) && Slices(t, rows)
    requires AllTradesValid(pre + [t] + post) && Prices(s, pow, aum, pre + [t] + post)
    ensures AllTradesValid(pre + rows + post) && Prices(s, pow, aum, pre + rows + post)
    ensures KeyTotal(Priced(s, pow, aum, pre + rows + post, pre + rows + post), KeyOf(t), Commission)
            == KeyTotal(Priced(s, pow, aum, pre + [t] + post, pre + [t] + post), KeyOf(t), Commission)
       <==> RowCommission(s, pow, aum, t) == 0.0 || NonZeroRows(rows) == NonZeroRows([t])
  {
    hide Price, PriceIn, ValidTrade, ValidStack, Slices, Consistent, GroupGross, Notional, KeyTotal, AllPrice, Priced,
      RowCommission, NonZeroRows, Times;
    var whole, sliced := pre + [t] + post, pre + rows + post;
    SlicingKeepsRefusals(s, pow, aum, pre, t, rows, post);
    SlicesValid(t, rows);
    TotalsSplit(s, pow, aum, whole, pre, [t], post, KeyOf(t), Commission);
    TotalsSplit(s, pow, aum, sliced, pre, rows, post, KeyOf(t), Commission);
    SamePrices(s, pow, aum, whole, sliced, pre);
    SamePrices(s, pow, aum, whole, sliced, post);
    OneSlice(t);
    SliceList(t, rows);
    CommissionTotal(s, pow, aum, whole, t, [t]);
    CommissionTotal(s, pow, aum, sliced, t, rows);
    FactorsEqual(RowCommission(s, pow, aum, t), NonZeroRows(rows) as real, NonZeroRows([t]) as real);
  }

  /** A stack that charges 1 per trade and nothing else. */
  function CommissionOnly(): Stack {
    Stack([FixedCommission(1.0)], map[], None)
  }

  function PlainTrade(notional: real): Trade {
    Trade("A", 0, notional, None, None, None)
  }

  /** A trade of 2 pays one commission; as two slices of 1 it pays two. */
  lemma SlicesPayTwice(pow: Power)
    ensures var s, t, rows := CommissionOnly(), PlainTrade(2.0), [PlainTrade(1.0), PlainTrade(1.0)];
            && ValidStack(s) && AllTradesValid([t]) && AllTradesValid(rows) && Slices(t, rows)
            && Prices(s, pow, None, [t]) && Prices(s, pow, None, rows)
            && KeyTotal(Priced(s, pow, None, rows, rows), KeyOf(t), Commission)
               != KeyTotal(Priced(s, pow, None, [t], [t]), KeyOf(t), Commission)
  {
    var s, t, rows := CommissionOnly(), PlainTrade(2.0), [PlainTrade(1.0), PlainTrade(1.0)];
    TwoSlices(t, rows);
    CommissionOnlyPrices(s, pow, t);
    CommissionOnlyRate(s, pow, t);
    hide Price, PriceIn, Slices, Prices, KeyTotal, Priced, RowCommission, NonZeroRows;
    assert [] + [t] + [] == [t] && [] + rows + [] == rows;
    SlicedCommission(s, pow, None, [], t, rows, []);
  }

  lemma TwoSlices(t: Trade, rows: seq<Trade>)
    requires t == PlainTrade(2.0) && rows == [PlainTrade(1.0), PlainTrade(1.0)]
    ensures Slices(t, rows) && NonZeroRows(rows) == 2 && NonZeroRows([t]) == 1
  {
    assert rows == [rows[0]] + [rows[1]];
    GrossConcat([rows[0]], [rows[1]], KeyOf(t));
    OneSlice(rows[0]);
    assert rows[..1] == [rows[0]] && rows[..1][..0] == [] && [t][..0] == [];
    assert NonZeroRows(rows[..1]) == 1;
  }

  lemma CommissionOnlyPrices(s: Stack, pow: Power, t: Trade)
    requires s == CommissionOnly() && t == PlainTrade(2.0)
    ensures ValidStack(s) && AllTradesValid([t]) && Prices(s, pow, None, [t])
  {
    assert StackCharges(s.components, 0, pow, t, GroupFor(s, [t], t)).Success?;
  }

  lemma CommissionOnlyRate(s: Stack, pow: Power, t: Trade)
    requires s == CommissionOnly() && t == PlainTrade(2.0)
    ensures ValidStack(s) && RowCommission(s, pow, None, t) == 1.0
  {
    assert CommissionRate(s.components, 0) == 0.0;
  }
}
