/** Accrued interest: the share of the running coupon that a buyer pays for, by days on a 365-day basis. */
module Accrual {
  import opened Arithmetic
  import opened Options
  import opened Calendar
  import opened Bonds
  import opened BondHoldings
  import opened BondEffects

  const DAYS_BASIS := 365

  function PeriodDays(frequency: nat): nat
    requires frequency > 0
  {
    DAYS_BASIS / frequency
  }

  const TEN_16 := 10000000000000000

  /** The yearly interest over the number of coupons, in units of the sixteenth place. */
  function CouponAmount(nominal: nat, rate: nat, frequency: nat): int
    requires frequency > 0
  {
    RoundDiv(nominal * rate, frequency)
  }

  /** Both quotients are taken to sixteen places; only their product is rounded, to six. */
  function Share(coupon: int, days: nat, period: nat): int
    requires period > 0
  {
    100 * RoundDiv(coupon * RoundDiv(days * TEN_16, period), TEN_10 * TEN_16)
  }

  /** Interest per unit after so many days, at most a whole period. */
  function AccruedAfter(nominal: nat, rate: nat, frequency: nat, days: nat): int
    requires 0 < frequency <= DAYS_BASIS
  {
    PeriodIsPositive(frequency);
    var period := PeriodDays(frequency);
    Share(CouponAmount(nominal, rate, frequency), if days > period then period else days, period)
  }

  lemma PeriodIsPositive(frequency: nat)
    requires 0 < frequency
    ensures PeriodDays(frequency) > 0 <==> frequency <= DAYS_BASIS
  {
    var q := DAYS_BASIS / frequency;
    assert DAYS_BASIS == q * frequency + DAYS_BASIS % frequency;
    if q > 0 {
      MulAtLeast(q, 1, frequency);
    } else {
      MulAtLeast(0, q, frequency);
    }
  }

  /** A frequency that is not positive or has no whole day in its period is an error, and so is an early settlement. */
  method CalcAccruedInterest(nominal: nat, rate: nat, frequency: int, last: Date, settlement: Date)
    returns (r: Option<int>)
    requires last.Valid() && settlement.Valid()
    ensures r.None? <==> frequency <= 0 || frequency > 365 || settlement.Before(last)
    ensures r.Some? ==>
              && DayNumber(settlement) >= DayNumber(last)
              && r.value == AccruedAfter(nominal, rate, frequency, DayNumber(settlement) - DayNumber(last))
  {
    if frequency <= 0 {
      return None;
    }
    if settlement.Before(last) {
      return None;
    }
    BeforeIsEarlier(settlement, last);
    var elapsed := DayNumber(settlement) - DayNumber(last);
    var period := DAYS_BASIS / frequency;
    PeriodIsPositive(frequency);
    if period <= 0 {
      return None;
    }
    if elapsed > period {
      elapsed := period;
    }
    var couponAmount := RoundDiv(nominal * rate, frequency);
    var fraction := RoundDiv(elapsed * TEN_16, period);
    r := Some(100 * RoundDiv(couponAmount * fraction, TEN_10 * TEN_16));
  }

  /** The latest coupon date that has come, or the issue date. */
  method LastCouponDate(issued: Date, dates: seq<Date>, now: Date) returns (last: Date)
    requires issued.Valid() && now.Valid() && forall i :: 0 <= i < |dates| ==> dates[i].Valid()
    ensures last == issued || (last in dates && issued.Before(last) && !now.Before(last))
    ensures forall d :: d in dates && !now.Before(d) ==> !last.Before(d)
  {
    last := issued;
    for i := 0 to |dates|
      invariant last == issued || (last in dates && issued.Before(last) && !now.Before(last))
      invariant forall j :: 0 <= j < i && !now.Before(dates[j]) ==> !last.Before(dates[j])
    {
      if last.Before(dates[i]) && !now.Before(dates[i]) {
        forall j | 0 <= j < i && !now.Before(dates[j])
          ensures !dates[i].Before(dates[j])
        {
          assert !last.Before(dates[j]);
        }
        last := dates[i];
      }
    }
  }

  lemma {:induction false} RoundDivMonotone(a: nat, b: nat, d: nat)
    requires d > 0 && a <= b
    ensures 0 <= RoundDiv(a, d) <= RoundDiv(b, d)
  {
    var q := (2 * b + d) / (2 * d);
    DivAtMost(2 * a + d, 2 * b + d, 2 * d);
  }

  lemma DivAtMost(x: nat, y: nat, d: nat)
    requires d > 0 && x <= y
    ensures 0 <= x / d <= y / d
  {
    var p, q := x / d, y / d;
    assert x == p * d + x % d && y == q * d + y % d;
    if p > q {
      MulAtLeast(p, q + 1, d);
    } else if p < 0 {
      MulAtLeast(-1, p, d);
    }
  }

  /** A share of the coupon grows with the days and is all of it after a whole period. */
  lemma ShareGrows(coupon: nat, days: nat, later: nat, period: nat)
    requires period > 0 && days <= later <= period
    ensures 0 <= Share(coupon, days, period) <= Share(coupon, later, period)
    ensures Share(coupon, period, period) == 100 * RoundDiv(coupon, TEN_10)
    ensures Share(coupon, 0, period) == 0
  {
    hide RoundDiv;
    RoundDivMonotone(days * TEN_16, later * TEN_16, period);
    var f, g := RoundDiv(days * TEN_16, period), RoundDiv(later * TEN_16, period);
    MulAtLeast(g, f, coupon);
    MulAtLeast(f, 0, coupon);
    RoundDivMonotone(coupon * f, coupon * g, TEN_10 * TEN_16);
    WholeShare(coupon, period);
    RoundDivExact(0, period);
    RoundDivExact(0, TEN_10 * TEN_16);
    assert coupon * 0 == 0;
  }

  lemma WholeShare(coupon: nat, period: nat)
    requires period > 0
    ensures Share(coupon, period, period) == 100 * RoundDiv(coupon, TEN_10)
  {
    hide RoundDiv;
    RoundDivExact(TEN_16, period);
    RoundDivScale(coupon, TEN_10, TEN_16);
  }

  /** Scaling both sides of the division by the same number changes nothing. */
  lemma RoundDivScale(a: nat, d: nat, k: nat)
    requires d > 0 && k > 0
    ensures k * d > 0 && RoundDiv(a * k, k * d) == RoundDiv(a, d)
  {
    var q := RoundDiv(a, d);
    assert 2 * d * q <= 2 * a + d < 2 * d * (q + 1) by {
      var x := 2 * a + d;
      assert x == (x / (2 * d)) * (2 * d) + x % (2 * d);
    }
    ScaledBetween(a, d, k, q);
    DivBetween(2 * (a * k) + k * d, 2 * (k * d), q);
  }

  lemma ScaledBetween(a: nat, d: nat, k: nat, q: int)
    requires d > 0 && k > 0 && 2 * d * q <= 2 * a + d < 2 * d * (q + 1)
    ensures k * d > 0
    ensures 2 * (k * d) * q <= 2 * (a * k) + k * d < 2 * (k * d) * (q + 1)
  {
    MulAtLeast(d, 1, k);
    MulAtLeast(2 * a + d, 2 * d * q, k);
    MulAtLeast(2 * d * (q + 1), 2 * a + d + 1, k);
    assert (2 * d * q) * k == 2 * (k * d) * q;
    assert (2 * d * (q + 1)) * k == 2 * (k * d) * (q + 1);
    assert (2 * a + d) * k == 2 * (a * k) + k * d;
    assert (2 * a + d + 1) * k == 2 * (a * k) + k * d + k;
  }

  /**
   * What is computed on a 365-day basis: the coupon and the fraction of the period, each the nearest in the
   * sixteenth decimal place, and of their product the nearest in the sixth.
   */
  lemma AccruedIsRounded(nominal: nat, rate: nat, frequency: nat, days: nat)
    requires frequency in {1, 2, 4}
    ensures
      var period := 365 / frequency;
      exists coupon, fraction, accrued ::
        && Nearest(coupon, nominal * rate, frequency)
        && Nearest(fraction, (if days > period then period else days) * 10000000000000000, period)
        && Nearest(accrued, coupon * fraction, 100000000000000000000000000)
        && AccruedAfter(nominal, rate, frequency, days) == 100 * accrued
  {
    PeriodIsPositive(frequency);
    var period := 365 / frequency;
    var counted := if days > period then period else days;
    var coupon, fraction := RoundDiv(nominal * rate, frequency), RoundDiv(counted * 10000000000000000, period);
    var accrued := RoundDiv(coupon * fraction, 100000000000000000000000000);
    RoundDivNearest(nominal * rate, frequency);
    RoundDivNearest(counted * 10000000000000000, period);
    RoundDivNearest(coupon * fraction, 100000000000000000000000000);
    hide RoundDiv, Nearest;
    assert AccruedAfter(nominal, rate, frequency, days) == 100 * accrued;
  }

  /**
   * Accrued interest starts at nothing, does not fall while days pass, and ends at exactly the amount of
   * the coupon, however late the next coupon is paid.
   */
  lemma AccruedGrowsToTheCoupon(nominal: nat, rate: nat, frequency: nat, days: nat, later: nat)
    requires frequency in {1, 2, 4} && days <= later
    ensures AccruedAfter(nominal, rate, frequency, 0) == 0
    ensures 0 <= AccruedAfter(nominal, rate, frequency, days) <= AccruedAfter(nominal, rate, frequency, later)
    ensures AccruedAfter(nominal, rate, frequency, later) <= PerUnit(nominal, rate, frequency)
    ensures later >= PeriodDays(frequency) ==>
              AccruedAfter(nominal, rate, frequency, later) == PerUnit(nominal, rate, frequency)
  {
    PeriodIsPositive(frequency);
    var period := PeriodDays(frequency);
    var c := if days > period then period else days;
    var e := if later > period then period else later;
    hide RoundDiv, Share;
    MulAtLeast(nominal, 0, rate);
    RoundDivNonNegative(nominal * rate, frequency);
    var coupon := CouponAmount(nominal, rate, frequency);
    ShareGrows(coupon, c, e, period);
    ShareGrows(coupon, e, period, period);
  }
}
