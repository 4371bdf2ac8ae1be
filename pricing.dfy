/**
 * `calculate_broker_fee` (report_generator.py:30-42): a percentage broker fee,
 * topped up by whatever commission the insurer's quote falls short of the target
 * commission percentage.
 */
module Pricing {
  import opened Values
  import opened Money
  import opened Numbers

  function Max(a: real, b: real): real { if a >= b then a else b }

  function Min(a: real, b: real): real { if a <= b then a else b }

  /** `float(v)`, with 0 where `float` raises. */
  function FloatOrZero(v: Value): real
  {
    match ToFloat(v)
    case Some(x) => x
    case None => 0.0
  }

  /**
   * Percentage points of commission still missing: the target minus the commission
   * already in the quote as a percentage of `base`, never negative. A zero base
   * has no shortfall rather than a division by zero.
   */
  function ShortfallPct(base: real, commissionPct: int, commission: real): (s: real)
    ensures s >= 0.0
    ensures base == 0.0 ==> s == 0.0
    ensures base != 0.0 && commission / base * 100.0 >= commissionPct as real ==> s == 0.0
  {
    if base != 0.0 then Max(commissionPct as real - commission / base * 100.0, 0.0) else 0.0
  }

  /** The broker fee percentage after the shortfall is added: never below the broker's own rate. */
  function EffectivePct(base: real, brokerFeePct: int, commissionPct: int, commission: real): (p: real)
    ensures p >= brokerFeePct as real
    ensures base == 0.0 ==> p == brokerFeePct as real
  {
    brokerFeePct as real + ShortfallPct(base, commissionPct, commission)
  }

  /** `calculate_broker_fee(base, broker_fee_pct, commission_pct, commission_without_gst)`. */
  function BrokerFee(base: real, brokerFeePct: int, commissionPct: int, commission: Value): (fee: real)
    ensures IsCents(fee)
    ensures base == 0.0 ==> fee == 0.0
  {
    var fee := Round2(base * (EffectivePct(base, brokerFeePct, commissionPct, FloatOrZero(commission)) / 100.0));
    Round2OfCents(0.0);
    fee
  }

  /** The shortfall in dollars: `base * ShortfallPct / 100` is the commission missing from the target, or 0. */
  lemma ShortfallInDollars(base: real, commissionPct: int, commission: real)
    requires base > 0.0
    ensures base * (ShortfallPct(base, commissionPct, commission) / 100.0)
         == Max(base * commissionPct as real / 100.0 - commission, 0.0)
  {
    var t := commissionPct as real - commission / base * 100.0;
    assert base * (t / 100.0) == base * commissionPct as real / 100.0 - commission by {
      assert base * (commission / base) == commission;
    }
    assert t >= 0.0 <==> base * (t / 100.0) >= 0.0;
  }

  /**
   * The amount the fee rounds, `amount`, is the broker's percentage of base
   * plus the shortfall in dollars, `closed`.
   */
  lemma FeeBeforeRounding(base: real, brokerFeePct: int, commissionPct: int, c: real, amount: real, closed: real)
    requires base > 0.0
    requires amount == base * (EffectivePct(base, brokerFeePct, commissionPct, c) / 100.0)
    requires closed == base * brokerFeePct as real / 100.0 + Max(base * commissionPct as real / 100.0 - c, 0.0)
    ensures amount == closed
  {
    var s := ShortfallPct(base, commissionPct, c);
    ShortfallInDollars(base, commissionPct, c);
    var e := EffectivePct(base, brokerFeePct, commissionPct, c);
    assert e / 100.0 == brokerFeePct as real / 100.0 + s / 100.0;
    assert base * (e / 100.0) == base * (brokerFeePct as real / 100.0) + base * (s / 100.0);
  }

  /**
   * For a positive base the fee is the broker's percentage of the base plus
   * exactly the commission the quote is short of the target, rounded once.
   */
  lemma BrokerFeeClosedForm(base: real, brokerFeePct: int, commissionPct: int, commission: Value)
    requires base > 0.0
    ensures BrokerFee(base, brokerFeePct, commissionPct, commission)
         == Round2(base * brokerFeePct as real / 100.0
                   + Max(base * commissionPct as real / 100.0 - FloatOrZero(commission), 0.0))
  {
    var c := FloatOrZero(commission);
    BrokerFeeOf(base, brokerFeePct, commissionPct, commission, c,
      base * brokerFeePct as real / 100.0 + Max(base * commissionPct as real / 100.0 - c, 0.0));
  }

  /** The same, with the commission as a number `c` and the closed-form amount named `closed`. */
  lemma BrokerFeeOf(base: real, brokerFeePct: int, commissionPct: int, commission: Value, c: real, closed: real)
    requires base > 0.0 && c == FloatOrZero(commission)
    requires closed == base * brokerFeePct as real / 100.0 + Max(base * commissionPct as real / 100.0 - c, 0.0)
    ensures BrokerFee(base, brokerFeePct, commissionPct, commission) == Round2(closed)
  {
    var amount := base * (EffectivePct(base, brokerFeePct, commissionPct, c) / 100.0);
    FeeBeforeRounding(base, brokerFeePct, commissionPct, c, amount, closed);
    BrokerFeeRounds(base, brokerFeePct, commissionPct, commission, amount, closed);
  }

  /** The fee is the rounding of whatever amount equals the unrounded fee. */
  lemma BrokerFeeRounds(base: real, brokerFeePct: int, commissionPct: int, commission: Value, amount: real, closed: real)
    requires amount == base * (EffectivePct(base, brokerFeePct, commissionPct, FloatOrZero(commission)) / 100.0)
    requires amount == closed
    ensures BrokerFee(base, brokerFeePct, commissionPct, commission) == Round2(closed)
  {
  }

  /**
   * For a negative base the shortfall percentage is still never negative, so in
   * dollars it is `base * commission_pct / 100 - commission` or 0, whichever is smaller.
   */
  lemma ShortfallInDollarsNegative(base: real, commissionPct: int, commission: real)
    requires base < 0.0
    ensures base * (ShortfallPct(base, commissionPct, commission) / 100.0)
         == Min(base * commissionPct as real / 100.0 - commission, 0.0)
  {
    var t := commissionPct as real - commission / base * 100.0;
    assert base * (t / 100.0) == base * commissionPct as real / 100.0 - commission by {
      assert base * (commission / base) == commission;
    }
    assert t >= 0.0 <==> base * (t / 100.0) <= 0.0;
  }

  /** The amount the fee rounds for a negative base, `amount`, is `closed`. */
  lemma FeeBeforeRoundingNegative(base: real, brokerFeePct: int, commissionPct: int, c: real, amount: real, closed: real)
    requires base < 0.0
    requires amount == base * (EffectivePct(base, brokerFeePct, commissionPct, c) / 100.0)
    requires closed == base * brokerFeePct as real / 100.0 + Min(base * commissionPct as real / 100.0 - c, 0.0)
    ensures amount == closed
  {
    var s := ShortfallPct(base, commissionPct, c);
    ShortfallInDollarsNegative(base, commissionPct, c);
    var e := EffectivePct(base, brokerFeePct, commissionPct, c);
    assert e / 100.0 == brokerFeePct as real / 100.0 + s / 100.0;
    assert base * (e / 100.0) == base * (brokerFeePct as real / 100.0) + base * (s / 100.0);
  }

  /** The fee for a negative base: the broker's percentage plus the smaller of the dollar shortfall and 0, rounded once. */
  lemma BrokerFeeNegativeBase(base: real, brokerFeePct: int, commissionPct: int, commission: Value)
    requires base < 0.0
    ensures BrokerFee(base, brokerFeePct, commissionPct, commission)
         == Round2(base * brokerFeePct as real / 100.0
                   + Min(base * commissionPct as real / 100.0 - FloatOrZero(commission), 0.0))
  {
    var c := FloatOrZero(commission);
    BrokerFeeOfNegative(base, brokerFeePct, commissionPct, commission, c,
      base * brokerFeePct as real / 100.0 + Min(base * commissionPct as real / 100.0 - c, 0.0));
  }

  lemma BrokerFeeOfNegative(base: real, brokerFeePct: int, commissionPct: int, commission: Value, c: real, closed: real)
    requires base < 0.0 && c == FloatOrZero(commission)
    requires closed == base * brokerFeePct as real / 100.0 + Min(base * commissionPct as real / 100.0 - c, 0.0)
    ensures BrokerFee(base, brokerFeePct, commissionPct, commission) == Round2(closed)
  {
    var amount := base * (EffectivePct(base, brokerFeePct, commissionPct, c) / 100.0);
    FeeBeforeRoundingNegative(base, brokerFeePct, commissionPct, c, amount, closed);
    BrokerFeeRounds(base, brokerFeePct, commissionPct, commission, amount, closed);
  }

  /** A quote whose commission already meets the target pays only the broker's own percentage. */
  lemma FeeWhenCommissionMeetsTarget(base: real, brokerFeePct: int, commissionPct: int, commission: Value)
    requires base > 0.0
    requires FloatOrZero(commission) >= base * commissionPct as real / 100.0
    ensures BrokerFee(base, brokerFeePct, commissionPct, commission)
         == Round2(base * brokerFeePct as real / 100.0)
  {
    BrokerFeeClosedForm(base, brokerFeePct, commissionPct, commission);
  }

  /** A quote with no commission pays the broker's percentage plus the whole target commission. */
  lemma FeeWhenNoCommission(base: real, brokerFeePct: int, commissionPct: int, commission: Value)
    requires base > 0.0 && commissionPct >= 0
    requires FloatOrZero(commission) == 0.0
    ensures BrokerFee(base, brokerFeePct, commissionPct, commission)
         == Round2(base * (brokerFeePct + commissionPct) as real / 100.0)
  {
    var b, k := base * brokerFeePct as real / 100.0, base * commissionPct as real / 100.0;
    assert k >= 0.0;
    assert Max(k - 0.0, 0.0) == k;
    assert b + k == base * (brokerFeePct + commissionPct) as real / 100.0;
    BrokerFeeOf(base, brokerFeePct, commissionPct, commission, 0.0, b + k);
  }

  /** Base 10000 at 20% / 20% with commission 2000: no shortfall, fee 2000.00. */
  lemma BrokerFeeExampleMet()
    ensures BrokerFee(10000.0, 20, 20, VNum(2000.0)) == 2000.0
  {
    FeeWhenCommissionMeetsTarget(10000.0, 20, 20, VNum(2000.0));
    Round2OfCents(2000.0);
  }

  /** Base 10000 at 20% / 20% with no commission: the whole 20% is added, fee 4000.00. */
  lemma BrokerFeeExampleNone()
    ensures BrokerFee(10000.0, 20, 20, VNum(0.0)) == 4000.0
  {
    FeeWhenNoCommission(10000.0, 20, 20, VNum(0.0));
    Round2OfCents(4000.0);
  }
}
