/** What each charge, each bucket and each group total comes to, in the configured basis points. */
module CostsMeaning {
  import opened Sums
  import opened Ordering
  import opened Wrappers
  import opened Costs

  // ---------------------------------------------------------------- one component

  /** Basis points are ten-thousandths. */
  const PER_UNIT: real := 10000.0

  /** What ten thousand times a charge on a non-zero trade comes to. */
  predicate ChargeMeans(c: Component, pow: Power, t: Trade, group: real, amount: real) {
    var n := if t.signedNotional >= 0.0 then t.signedNotional else -t.signedNotional;
    match c
    case FixedCommission(perTrade) => amount == perTrade
    case HalfSpread(fraction) =>
      t.spreadBps.Some? && Times(PER_UNIT, amount) == Times(Times(fraction, t.spreadBps.value), n)
    case LinearCost(oneWayBps, overrides) =>
      if t.region.Some? && t.region.value in overrides then Times(PER_UNIT, amount) == Times(overrides[t.region.value], n)
      else Times(PER_UNIT, amount) == Times(oneWayBps, n)
    case MarketImpact(coefficient, exponent) =>
      && t.advNotional.Some? && t.advNotional.value > 0.0
      && Times(PER_UNIT, amount) == Times(Times(coefficient, pow(group / t.advNotional.value, exponent)), n)
    case AdvParticipation(maximum, penalty) =>
      && t.advNotional.Some?
      && (group <= Times(maximum, t.advNotional.value) || penalty.None? ==> amount == 0.0)
      && (group > Times(maximum, t.advNotional.value) && penalty.Some? ==>
            Times(Times(PER_UNIT, amount), group)
            == Times(Times(penalty.value, group - Times(maximum, t.advNotional.value)), n))
  }

  lemma InBps(rate: real, n: real)
    ensures Times(PER_UNIT, Times(rate * BPS, n)) == Times(rate, n)
  {
  }

  lemma SpreadInBps(fraction: real, spread: real, n: real)
    ensures Times(PER_UNIT, Times(SpreadRate(fraction, spread), n)) == Times(Times(fraction, spread), n)
  {
    InBps(fraction * spread, n);
  }

  lemma ImpactInBps(coefficient: real, scaled: real, n: real)
    ensures Times(PER_UNIT, Times(ImpactRate(coefficient, scaled), n)) == Times(Times(coefficient, scaled), n)
  {
    assert coefficient * BPS * scaled == coefficient * scaled * BPS;
    InBps(coefficient * scaled, n);
  }

  lemma PenaltyInBps(penalty: real, excess: real, n: real, group: real)
    requires group > 0.0
    ensures Times(Times(PER_UNIT, Times(PenaltyOn(penalty, excess), n / group)), group) == Times(Times(penalty, excess), n)
  {
    var share := n / group;
    assert share * group == n;
    assert penalty * BPS * excess == penalty * excess * BPS;
    InBps(penalty * excess, share);
    assert Times(Times(Times(penalty, excess), share), group) == Times(Times(penalty, excess), share * group);
  }

  /** Each charge is its configured basis points of the notional, and a trade of nothing costs nothing. */
  lemma ComponentCosts(c: Component, pow: Power, t: Trade, group: real)
    requires ValidComponent(c) && ValidTrade(t) && ChargeOf(c, pow, t, group).Success?
    ensures t.signedNotional == 0.0 ==> ChargeOf(c, pow, t, group).value.amount == 0.0
    ensures t.signedNotional != 0.0 ==> ChargeMeans(c, pow, t, group, ChargeOf(c, pow, t, group).value.amount)
  {
    hide Times, SpreadRate, ImpactRate, PenaltyOn;
    TimesByZero(UnitRate(c, pow, t, group));
    if t.signedNotional == 0.0 {
      ChargeIsLinear(c, pow, t, group);
    } else {
      match c
      case FixedCommission(_) =>
      case HalfSpread(fraction) => SpreadInBps(fraction, t.spreadBps.value, Notional(t));
      case LinearCost(_, _) => InBps(RateBps(c, t.region), Notional(t));
      case MarketImpact(coefficient, exponent) =>
        ImpactInBps(coefficient, pow(group / t.advNotional.value, exponent), Notional(t));
        if coefficient == 0.0 {
          TimesByZero(pow(group / t.advNotional.value, exponent));
          TimesByZero(Notional(t));
          TimesByZero(PER_UNIT);
        }
      case AdvParticipation(maximum, penalty) =>
        if penalty.Some? && group > Times(maximum, t.advNotional.value) {
          NonNegative(maximum, t.advNotional.value);
          PenaltyInBps(penalty.value, group - Times(maximum, t.advNotional.value), Notional(t), group);
        }
    }
  }

  // ---------------------------------------------------------------- the penalty of a group

  function Magnitudes(rows: seq<Trade>): (v: seq<real>)
    ensures |v| == |rows|
  {
    seq(|rows|, i requires 0 <= i < |rows| => Abs(rows[i].signedNotional))
  }

  /** The rows of a group, together, pay the penalty on the group's excess once, however it is sliced. */
  lemma GroupPaysOnce(c: Component, pow: Power, t: Trade, rows: seq<Trade>, amounts: seq<real>, group: real)
    requires ValidComponent(c) && ValidTrade(t) && c.AdvParticipation? && c.penaltyBps.Some? && t.advNotional.Some?
    requires |amounts| == |rows| && group == Sum(Magnitudes(rows)) > Times(c.maxParticipation, t.advNotional.value)
    requires forall i :: 0 <= i < |rows| ==>
               SameTerms(t, rows[i]) && ChargeOf(c, pow, rows[i], group).Success?
               && amounts[i] == ChargeOf(c, pow, rows[i], group).value.amount
    ensures Times(PER_UNIT, Sum(amounts)) == Times(c.penaltyBps.value, group - Times(c.maxParticipation, t.advNotional.value))
  {
    hide Times, Sum, ChargeOf, UnitRate, PenaltyOn;
    var rate, excess := UnitRate(c, pow, t, group), group - Times(c.maxParticipation, t.advNotional.value);
    NonNegative(c.maxParticipation, t.advNotional.value);
    forall i | 0 <= i < |rows| ensures amounts[i] == Times(rate, Magnitudes(rows)[i]) {
      ChargeIsLinear(c, pow, rows[i], group);
      SameRate(c, pow, t, rows[i], group);
    }
    SumScale(rate, Magnitudes(rows), amounts);
    PenaltyRate(c, pow, t, group);
    WholePenalty(c.penaltyBps.value, excess, group);
  }

  lemma SameRate(c: Component, pow: Power, t: Trade, u: Trade, group: real)
    requires SameTerms(t, u)
    ensures UnitRate(c, pow, u, group) == UnitRate(c, pow, t, group)
  {
  }

  lemma PenaltyRate(c: Component, pow: Power, t: Trade, group: real)
    requires c.AdvParticipation? && c.penaltyBps.Some? && t.advNotional.Some? && group > 0.0
    requires group > Times(c.maxParticipation, t.advNotional.value)
    ensures UnitRate(c, pow, t, group) == PenaltyOn(c.penaltyBps.value, group - Times(c.maxParticipation, t.advNotional.value)) / group
  {
  }

  lemma WholePenalty(penalty: real, excess: real, group: real)
    requires group > 0.0
    ensures Times(PER_UNIT, Times(PenaltyOn(penalty, excess) / group, group)) == Times(penalty, excess)
  {
    var p := PenaltyOn(penalty, excess);
    assert p / group * group == p;
    assert penalty * BPS * excess == penalty * excess * BPS;
  }

  // ---------------------------------------------------------------- one trade through the stack

  /** The rule whose charges a bucket collects. */
  predicate Collects(b: Bucket, c: Component) {
    match b
    case Commission => c.FixedCommission?
    case Spread => c.HalfSpread?
    case Linear => c.LinearCost?
    case Impact => c.MarketImpact?
    case ParticipationPenalty => c.AdvParticipation?
  }

  /** What the first n components charge in one bucket. */
  ghost function Collected(cs: seq<Component>, n: nat, pow: Power, t: Trade, group: real, b: Bucket): real
    requires n <= |cs| && AllComponentsValid(cs) && ValidTrade(t)
  {
    if n == 0 then 0.0
    else
      Collected(cs, n - 1, pow, t, group, b)
      + if Collects(b, cs[n - 1]) && ChargeOf(cs[n - 1], pow, t, group).Success? then ChargeOf(cs[n - 1], pow, t, group).value.amount else 0.0
  }

  lemma {:induction false} StackCollects(cs: seq<Component>, n: nat, pow: Power, t: Trade, group: real)
    requires n <= |cs| && AllComponentsValid(cs) && ValidTrade(t) && StackCharges(cs, n, pow, t, group).Success?
    ensures var amounts := StackCharges(cs, n, pow, t, group).value.0;
            && (forall b :: b in amounts && amounts[b] == Collected(cs, n, pow, t, group, b))
            && forall i :: 0 <= i < n ==> ChargeOf(cs[i], pow, t, group).Success?
  {
    hide ChargeOf, Collects;
    if n > 0 {
      StackCollects(cs, n - 1, pow, t, group);
      var c := cs[n - 1];
      forall b ensures Collects(b, c) <==> c.BucketOf() == b {
        OneBucket(b, c);
      }
    } else {
      AllBuckets();
    }
  }

  lemma AllBuckets()
    ensures forall b: Bucket :: b in NoAmounts && NoAmounts[b] == 0.0
  {
    forall b: Bucket ensures b in NoAmounts && NoAmounts[b] == 0.0 {
      match b
      case Commission =>
      case Spread =>
      case Linear =>
      case Impact =>
      case ParticipationPenalty =>
    }
  }

  lemma OneBucket(b: Bucket, c: Component)
    ensures Collects(b, c) <==> c.BucketOf() == b
  {
  }

  function Repeated(x: real, m: nat): real {
    if m == 0 then 1.0 else Times(Repeated(x, m - 1), x)
  }

  lemma {:induction false} SizeFactorRepeats(buckets: seq<Bucket>, b: Bucket, multiplier: real)
    ensures SizeFactor(buckets, b, multiplier) == Repeated(multiplier, multiset(buckets)[b])
    decreases |buckets|
  {
    if buckets != [] {
      var n := |buckets| - 1;
      SizeFactorRepeats(buckets[..n], b, multiplier);
      assert buckets == buckets[..n] + [buckets[n]];
    }
  }

  /** The multiplier of a region that is listed, else one. */
  predicate RegionalRate(s: Stack, t: Trade, rate: real) {
    if t.region.Some? && t.region.value in s.regionMultipliers then rate == s.regionMultipliers[t.region.value] else rate == 1.0
  }

  /**
   * Every bucket of a price is what its rule charges, times the multiplier of the trade's region, times the
   * size power once for every mention of the bucket in the scaling list.
   */
  lemma PriceCollects(s: Stack, pow: Power, aum: Option<real>, t: Trade, group: real, region: real, b: Bucket)
    requires ValidStack(s) && ValidTrade(t) && Price(s, pow, aum, t, group).Success? && RegionalRate(s, t, region)
    ensures var price := Price(s, pow, aum, t, group).value;
            && price.trade == t && b in price.amounts
            && (s.sizeScaling.None? ==>
                  price.amounts[b] == Times(region, Collected(s.components, |s.components|, pow, t, group, b)))
            && (s.sizeScaling.Some? ==>
                  && aum.Some?
                  && var size := s.sizeScaling.value;
                     price.amounts[b]
                     == Times(Times(region, Repeated(pow(aum.value / size.referenceAum, size.exponent), multiset(size.appliesTo)[b])),
                              Collected(s.components, |s.components|, pow, t, group, b)))
  {
    hide Times, ChargeOf, SizeFactor, StackCharges, Collected, Repeated;
    StackCollects(s.components, |s.components|, pow, t, group);
    if s.sizeScaling.Some? && aum.Some? {
      SizeFactorRepeats(s.sizeScaling.value.appliesTo, b, SizeMultiplier(s, pow, aum.value));
    }
  }

  /** A price is refused for a missing input of some component, for a volume that is not positive, or for missing assets. */
  lemma PriceRefused(s: Stack, pow: Power, aum: Option<real>, t: Trade, group: real)
    requires ValidStack(s) && ValidTrade(t)
    ensures Price(s, pow, aum, t, group).Failure?
       <==> (s.sizeScaling.Some? && aum.None?)
            || (t.signedNotional != 0.0 && exists i :: 0 <= i < |s.components| && LacksInput(s.components[i], t))
  {
    hide StackCharges, Modified;
    StackIsLinear(s.components, |s.components|, pow, t, group);
    forall i | 0 <= i < |s.components| ensures LacksInput(s.components[i], t) <==> !InputsPresent(s.components[i], t) {
    }
  }

  /** A spread cost without a quoted spread; a volume rule without a volume; impact on a volume of nothing. */
  predicate LacksInput(c: Component, t: Trade) {
    || (c.HalfSpread? && t.spreadBps == None)
    || (c.MarketImpact? && (t.advNotional == None || t.advNotional == Some(0.0) || t.advNotional.value < 0.0))
    || (c.AdvParticipation? && t.advNotional == None)
  }

  /** A price is flagged exactly when it trades and its group exceeds some participation cap. */
  lemma PriceFlagged(s: Stack, pow: Power, aum: Option<real>, t: Trade, group: real)
    requires ValidStack(s) && ValidTrade(t) && Price(s, pow, aum, t, group).Success?
    ensures Price(s, pow, aum, t, group).value.flagged
       <==> t.signedNotional != 0.0 && exists i :: 0 <= i < |s.components| && Exceeds(s.components[i], t, group)
  {
    hide StackCharges, Modified;
    PriceIsLinear(s, pow, aum, t, group);
    forall i | 0 <= i < |s.components| ensures Exceeds(s.components[i], t, group) <==> Breaches(s.components[i], t, group) {
    }
  }

  predicate Exceeds(c: Component, t: Trade, group: real) {
    c.AdvParticipation? && t.advNotional.Some? && Times(c.maxParticipation, t.advNotional.value) < group
  }

  // ---------------------------------------------------------------- groups

  /** The absolute notional of the rows of one security and day, and nothing for the others. */
  function DayNotionals(trades: seq<Trade>, security: Id, day: int): (v: seq<real>)
    ensures |v| == |trades|
  {
    seq(|trades|, i requires 0 <= i < |trades| =>
      if trades[i].securityId == security && trades[i].tradeDate == day then Abs(trades[i].signedNotional) else 0.0)
  }

  lemma {:induction false} GroupIsDay(trades: seq<Trade>, security: Id, day: int)
    ensures GroupGross(trades, (security, day)) == Sum(DayNotionals(trades, security, day))
    decreases |trades|
  {
    if trades != [] {
      var n := |trades| - 1;
      GroupIsDay(trades[..n], security, day);
      assert DayNotionals(trades, security, day)[..n] == DayNotionals(trades[..n], security, day);
    }
  }

  /** Each row is priced off its security's gross notional of the day if a volume rule is configured, else off its own. */
  lemma RowsPricedByDay(s: Stack, pow: Power, aum: Option<real>, trades: seq<Trade>, i: nat)
    requires ValidStack(s) && AllTradesValid(trades) && i < |trades| && Prices(s, pow, aum, trades)
    ensures var t := trades[i];
            var group := if exists c :: c in s.components && (c.MarketImpact? || c.AdvParticipation?)
                         then Sum(DayNotionals(trades, t.securityId, t.tradeDate)) else Abs(t.signedNotional);
            Price(s, pow, aum, t, group) == Success(Priced(s, pow, aum, trades, trades)[i])
  {
    hide Price, Sum;
    GroupIsDay(trades, trades[i].securityId, trades[i].tradeDate);
    if c :| c in s.components && (c.MarketImpact? || c.AdvParticipation?) {
      var k :| 0 <= k < |s.components| && s.components[k] == c;
      assert NeedsGroupTotals(s);
    }
  }
}
