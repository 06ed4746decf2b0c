/**
 * Coupon schedules: dates a whole number of months apart, as Go's time.Time.AddDate computes them,
 * from the issue date up to maturity.
 */
module Calendar {
  import opened Arithmetic

  /** Months are counted from year 0, so January of year y is 12 * y. */
  datatype Date = Date(month: nat, day: nat) {
    predicate Valid() {
      1 <= day <= DaysIn(month)
    }

    predicate Before(d: Date) {
      month < d.month || (month == d.month && day < d.day)
    }

    /** Adds to the month; a day the new month does not have runs over into the next one. */
    function AddMonths(months: nat): (r: Date)
      requires Valid()
    {
      var m := month + months;
      if day <= DaysIn(m) then Date(m, day) else Date(m + 1, day - DaysIn(m))
    }
  }

  predicate IsLeap(year: nat) {
    year % 4 == 0 && (year % 100 != 0 || year % 400 == 0)
  }

  function DaysIn(month: nat): (r: nat)
    ensures 28 <= r <= 31
  {
    var m := month % 12;
    if m == 1 then (if IsLeap(month / 12) then 29 else 28)
    else if m == 3 || m == 5 || m == 8 || m == 10 then 30
    else 31
  }

  /** Days from the start of year 0 to the first of the month: an independent measure of time. */
  function DaysBefore(month: nat): nat {
    if month == 0 then 0 else DaysBefore(month - 1) + DaysIn(month - 1)
  }

  function DayNumber(d: Date): int {
    DaysBefore(d.month) + d.day - 1
  }

  lemma {:induction false} DaysBeforeGrows(m: nat, n: nat)
    requires m <= n
    ensures DaysBefore(m) + 28 * (n - m) <= DaysBefore(n)
  {
    if m < n {
      DaysBeforeGrows(m, n - 1);
    }
  }

  /** Comparing months, then days, is comparing points in time. */
  lemma BeforeIsEarlier(d: Date, e: Date)
    requires d.Valid() && e.Valid()
    ensures d.Before(e) <==> DayNumber(d) < DayNumber(e)
  {
    if d.month < e.month {
      DaysBeforeGrows(d.month + 1, e.month);
    } else if e.month < d.month {
      DaysBeforeGrows(e.month + 1, d.month);
    }
  }

  /** Running over keeps the count of days: the day asked for, counted from the first of the month asked for. */
  lemma AddMonthsDayNumber(d: Date, months: nat)
    requires d.Valid()
    ensures d.AddMonths(months).Valid()
    ensures DayNumber(d.AddMonths(months)) == DaysBefore(d.month + months) + d.day - 1
    ensures months > 0 ==> d.Before(d.AddMonths(months))
  {
  }

  // ---- The calendar itself ----

  /** The days before the given month of a common year. */
  const DAYS_TO_MONTH := [0, 31, 59, 90, 120, 151, 181, 212, 243, 273, 304, 334, 365]

  /** How many multiples of n there are before the given year, year 0 included. */
  function MultiplesBefore(year: nat, n: nat): nat
    requires n > 0
  {
    (year + n - 1) / n
  }

  /** Leap years by counting: every fourth, but not every hundredth, but every four hundredth. */
  function LeapYearsBefore(year: nat): int {
    MultiplesBefore(year, 4) - MultiplesBefore(year, 100) + MultiplesBefore(year, 400)
  }

  lemma MonthParts(year: nat, r: nat)
    requires r < 12
    ensures (12 * year + r) / 12 == year && (12 * year + r) % 12 == r
  {
  }

  lemma MonthLength(year: nat, r: nat)
    requires r < 12
    ensures DaysIn(12 * year + r)
         == DAYS_TO_MONTH[r + 1] - DAYS_TO_MONTH[r] + (if r == 1 && IsLeap(year) then 1 else 0)
  {
    MonthParts(year, r);
  }

  lemma CountsMultiples(y: nat, n: nat)
    requires n >= 2
    ensures MultiplesBefore(y + 1, n) - MultiplesBefore(y, n) == if y % n == 0 then 1 else 0
  {
    DivModUnique(y + n, n, y / n + 1, y % n);
    if y % n == 0 {
      DivModUnique(y + n - 1, n, y / n, n - 1);
    } else {
      DivModUnique(y + n - 1, n, y / n + 1, y % n - 1);
    }
  }

  lemma MultiplesOfMultiples(y: nat)
    ensures y % 100 == 0 ==> y % 4 == 0
    ensures y % 400 == 0 ==> y % 100 == 0
  {
    if y % 100 == 0 {
      DivModUnique(y, 4, 25 * (y / 100), 0);
    }
    if y % 400 == 0 {
      DivModUnique(y, 100, 4 * (y / 400), 0);
    }
  }

  lemma LeapYearCounts(year: nat)
    ensures LeapYearsBefore(year + 1) - LeapYearsBefore(year) == if IsLeap(year) then 1 else 0
  {
    hide MultiplesBefore;
    CountsMultiples(year, 4);
    CountsMultiples(year, 100);
    CountsMultiples(year, 400);
    MultiplesOfMultiples(year);
  }

  /** The calendar is the Gregorian one: where each month starts, in days. */
  lemma {:induction false} FirstOfMonth(year: nat, m: nat)
    requires m <= 12
    ensures DaysBefore(12 * year + m)
         == 365 * year + LeapYearsBefore(year) + DAYS_TO_MONTH[m] + (if m >= 2 && IsLeap(year) then 1 else 0)
    decreases year, m
  {
    hide LeapYearsBefore, IsLeap, DaysIn;
    if m > 0 {
      FirstOfMonth(year, m - 1);
      MonthLength(year, m - 1);
    } else if year > 0 {
      FirstOfMonth(year - 1, 12);
      LeapYearCounts(year - 1);
    } else {
      assert LeapYearsBefore(0) == 0 by { NoLeapYears(); }
    }
  }

  lemma NoLeapYears()
    ensures LeapYearsBefore(0) == 0
  {
  }

  // ---- The schedule ----

  /** The coupon dates from d on, every step months, up to and including the last day. */
  function DatesFrom(d: Date, step: nat, last: Date): seq<Date>
    requires d.Valid() && step > 0
    decreases if last.Before(d) then 0 else last.month - d.month + 1
  {
    if last.Before(d) then []
    else
      AddMonthsDayNumber(d, step);
      [d] + DatesFrom(d.AddMonths(step), step, last)
  }

  function Period(frequency: nat): (months: nat)
    requires frequency in {1, 2, 4}
    ensures months > 0
  {
    12 / frequency
  }

  /** A bond that matures within its first period still pays one coupon, at maturity. */
  function CouponDates(issued: Date, maturity: Date, frequency: nat): seq<Date>
    requires issued.Valid() && frequency in {1, 2, 4}
  {
    AddMonthsDayNumber(issued, Period(frequency));
    var dates := DatesFrom(issued.AddMonths(Period(frequency)), Period(frequency), maturity);
    if dates == [] then [maturity] else dates
  }

  ghost predicate Increasing(dates: seq<Date>) {
    forall i, j :: 0 <= i < j < |dates| ==> dates[i].Before(dates[j])
  }

  lemma {:induction false} DatesFromProperties(d: Date, step: nat, last: Date)
    requires d.Valid() && step > 0
    ensures var dates := DatesFrom(d, step, last);
            && Increasing(dates)
            && (forall i :: 0 <= i < |dates| ==> dates[i].Valid() && !dates[i].Before(d) && !last.Before(dates[i]))
            && (forall i :: 0 <= i < |dates| - 1 ==> dates[i + 1] == dates[i].AddMonths(step))
            && (dates == [] <==> last.Before(d))
            && (dates != [] ==> dates[0] == d && last.Before(dates[|dates| - 1].AddMonths(step)))
    decreases if last.Before(d) then 0 else last.month - d.month + 1
  {
    if !last.Before(d) {
      AddMonthsDayNumber(d, step);
      hide Date.AddMonths, DaysIn, DaysBefore, DayNumber;
      var next := d.AddMonths(step);
      DatesFromProperties(next, step, last);
      var rest := DatesFrom(next, step, last);
      var dates := DatesFrom(d, step, last);
      assert dates == [d] + rest;
      forall i, j | 0 <= i < j < |dates|
        ensures dates[i].Before(dates[j])
      {
        assert dates[j] == rest[j - 1];
      }
    }
  }

  /**
   * What a schedule promises: it is never empty, its dates strictly increase, they lie after the issue
   * date and not after maturity, they are one period apart, and no further period fits.
   */
  lemma CouponDatesProperties(issued: Date, maturity: Date, frequency: nat)
    requires issued.Valid() && maturity.Valid() && frequency in {1, 2, 4} && issued.Before(maturity)
    ensures var dates := CouponDates(issued, maturity, frequency);
            && dates != []
            && Increasing(dates)
            && (forall i :: 0 <= i < |dates| ==>
                  dates[i].Valid() && issued.Before(dates[i]) && !maturity.Before(dates[i]))
            && (forall i :: 0 <= i < |dates| - 1 ==> dates[i + 1] == dates[i].AddMonths(Period(frequency)))
            && (dates[0] != issued.AddMonths(Period(frequency)) ==>
                  dates == [maturity] && maturity.Before(issued.AddMonths(Period(frequency))))
            && maturity.Before(dates[|dates| - 1].AddMonths(Period(frequency)))
  {
    hide Date.AddMonths, DatesFrom, DaysIn, DaysBefore, DayNumber;
    var step := Period(frequency);
    AddMonthsDayNumber(issued, step);
    AddMonthsDayNumber(maturity, step);
    hide Period;
    DatesFromProperties(issued.AddMonths(step), step, maturity);
  }

  lemma PlainMonths(d: Date, months: nat)
    requires 1 <= d.day <= 28
    ensures d.Valid() && d.AddMonths(months) == Date(d.month + months, d.day)
  {
  }

  lemma OneStepMore(step: nat, k: nat)
    ensures step * (k + 1) == step + step * k && step * 0 == 0
  {
  }

  /** From a day that every month has, the dates stay on that day, one step of months apart. */
  lemma {:induction false} DatesFromMonths(d: Date, step: nat, last: Date)
    requires 1 <= d.day <= 28 && step > 0
    ensures d.Valid()
    ensures var dates := DatesFrom(d, step, last);
            && (forall k :: 0 <= k < |dates| ==> dates[k] == Date(d.month + step * k, d.day))
            && last.Before(Date(d.month + step * |dates|, d.day))
    decreases if last.Before(d) then 0 else last.month - d.month + 1
  {
    PlainMonths(d, step);
    OneStepMore(step, 0);
    if !last.Before(d) {
      hide Date.AddMonths, DaysIn, Date.Valid;
      var next := Date(d.month + step, d.day);
      DatesFromMonths(next, step, last);
      var rest, dates := DatesFrom(next, step, last), DatesFrom(d, step, last);
      assert dates == [d] + rest;
      hide DatesFrom;
      forall k | 0 < k < |dates|
        ensures dates[k] == Date(d.month + step * k, d.day)
      {
        OneStepMore(step, k - 1);
      }
      OneStepMore(step, |rest|);
    }
  }

  /**
   * Coupon number k of a bond issued on a day that every month has falls on that day, 12 / frequency months
   * after the one before; the dates go on for as long as they are not after maturity.
   */
  lemma CouponMonths(issued: Date, maturity: Date, frequency: nat)
    requires 1 <= issued.day <= 28 && maturity.Valid() && frequency in {1, 2, 4}
    requires !maturity.Before(Date(issued.month + 12 / frequency, issued.day))
    ensures issued.Valid()
    ensures var dates := CouponDates(issued, maturity, frequency);
            && (forall k :: 0 <= k < |dates| ==> dates[k] == Date(issued.month + 12 * (k + 1) / frequency, issued.day))
            && maturity.Before(Date(issued.month + 12 * (|dates| + 1) / frequency, issued.day))
  {
    var step := 12 / frequency;
    PlainMonths(issued, step);
    var first := Date(issued.month + step, issued.day);
    DatesFromMonths(first, step, maturity);
    var dates := CouponDates(issued, maturity, frequency);
    assert dates == DatesFrom(first, step, maturity);
    hide CouponDates, DatesFrom, Date.AddMonths, DaysIn;
    OneStepMore(step, 0);
    forall k: nat | k <= |dates|
      ensures 12 * (k + 1) / frequency == step + step * k
    {
      WholePeriods(k + 1, frequency);
      OneStepMore(step, k);
    }
  }

  lemma WholePeriods(k: nat, frequency: nat)
    requires frequency in {1, 2, 4}
    ensures 12 * k / frequency == (12 / frequency) * k
  {
  }

  /** A bond that runs for whole years pays frequency coupons a year, the last one at maturity. */
  lemma WholeYears(issued: Date, years: nat, frequency: nat)
    requires 1 <= issued.day <= 28 && years > 0 && frequency in {1, 2, 4}
    ensures issued.Valid()
    ensures var maturity := Date(issued.month + 12 * years, issued.day);
            var dates := CouponDates(issued, maturity, frequency);
            |dates| == frequency * years && dates[|dates| - 1] == maturity
  {
    var maturity := Date(issued.month + 12 * years, issued.day);
    PlainMonths(issued, 0);
    PlainMonths(maturity, 0);
    CouponMonths(issued, maturity, frequency);
    var dates := CouponDates(issued, maturity, frequency);
    LastInRange(issued, maturity, frequency);
    hide CouponDates, DatesFrom, Date.AddMonths, DaysIn;
    var n := |dates|;
    assert dates[n - 1] == Date(issued.month + 12 * n / frequency, issued.day) && !maturity.Before(dates[n - 1]);
    CountPeriods(years, n, frequency);
  }

  lemma CountPeriods(years: nat, n: nat, frequency: nat)
    requires frequency in {1, 2, 4} && 12 * n / frequency <= 12 * years < 12 * (n + 1) / frequency
    ensures n == frequency * years && 12 * n / frequency == 12 * years
  {
    WholePeriods(n, frequency);
    WholePeriods(n + 1, frequency);
    assert frequency == 1 || frequency == 2 || frequency == 4;
  }

  lemma LastInRange(issued: Date, maturity: Date, frequency: nat)
    requires issued.Valid() && maturity.Valid() && frequency in {1, 2, 4} && issued.Before(maturity)
    ensures CouponDates(issued, maturity, frequency) != []
    ensures forall i :: 0 <= i < |CouponDates(issued, maturity, frequency)| ==>
              !maturity.Before(CouponDates(issued, maturity, frequency)[i])
  {
    hide CouponDates;
    CouponDatesProperties(issued, maturity, frequency);
  }

  lemma NextIsLater(d: Date, step: nat, last: Date)
    requires d.Valid() && step > 0 && !last.Before(d)
    ensures d.AddMonths(step).Valid()
    ensures !last.Before(d.AddMonths(step)) ==> d.month < d.AddMonths(step).month <= last.month
    ensures d.month <= last.month
  {
    AddMonthsDayNumber(d, step);
  }

  /** The loop of buildSchedule. */
  method BuildDates(issued: Date, maturity: Date, frequency: nat) returns (dates: seq<Date>)
    requires issued.Valid() && frequency in {1, 2, 4}
    ensures dates == CouponDates(issued, maturity, frequency)
  {
    hide Date.AddMonths, DaysIn, DaysBefore, DayNumber, Date.Before;
    var step := Period(frequency);
    AddMonthsDayNumber(issued, step);
    dates := [];
    var d := issued.AddMonths(step);
    while !maturity.Before(d)
      invariant d.Valid()
      invariant DatesFrom(issued.AddMonths(step), step, maturity) == dates + DatesFrom(d, step, maturity)
      decreases if maturity.Before(d) then 0 else maturity.month - d.month + 1
    {
      NextIsLater(d, step, maturity);
      dates := dates + [d];
      d := d.AddMonths(step);
    }
    if |dates| == 0 {
      dates := [maturity];
    }
  }
}
