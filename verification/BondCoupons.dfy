/** Coupons: in date order, never early, never twice, and in total exactly amount times placed quantity. */
module BondCoupons {
  import opened Arithmetic
  import opened Calendar
  import opened Bonds
  import opened BondHoldings
  import opened BondLedger
  import opened BondConservation

  /** What was paid out for one coupon of one issue. */
  function PaidTotal(payments: seq<Payment>, issue: nat, coupon: nat): int {
    if payments == [] then 0
    else
      var p := payments[|payments| - 1];
      PaidTotal(payments[..|payments| - 1], issue, coupon)
      + if p.issue == issue && p.coupon == coupon then p.amount else 0
  }

  lemma PaymentsSnoc(payments: seq<Payment>, p: Payment, issue: nat, coupon: nat)
    ensures PaidTotal(payments + [p], issue, coupon)
         == PaidTotal(payments, issue, coupon) + (if p.issue == issue && p.coupon == coupon then p.amount else 0)
  {
    assert (payments + [p])[..|payments|] == payments;
  }

  function Dates(cs: seq<Coupon>): seq<Date> {
    seq(|cs|, k requires 0 <= k < |cs| => cs[k].date)
  }

  /** The schedule as created, with a prefix of it paid. */
  ghost predicate ScheduleInv(i: Issue, cs: seq<Coupon>) {
    && Increasing(Dates(cs))
    && (i.frequency in {1, 2, 4} ==>
          forall k :: 0 <= k < |cs| ==> cs[k].amount == PerUnit(i.nominal, i.rate, i.frequency))
    && (forall j, k :: 0 <= j < k < |cs| && cs[k].paid ==> cs[j].paid)
    && (!i.status.Active? && !i.status.Matured? ==> forall k :: 0 <= k < |cs| ==> !cs[k].paid)
  }

  /** A paid coupon was paid in full to everybody, an unpaid one to nobody. */
  ghost predicate PaymentsInv(i: Issue, cs: seq<Coupon>, payments: seq<Payment>, issue: nat) {
    forall k: nat :: PaidTotal(payments, issue, k) == if k < |cs| && cs[k].paid then cs[k].amount * i.placed else 0
  }

  ghost predicate CouponInv(db: Db) {
    && |db.schedules| == |db.issues|
    && (forall i: nat :: i < |db.issues| ==>
          ScheduleInv(db.issues[i], db.schedules[i]) && PaymentsInv(db.issues[i], db.schedules[i], db.payments, i))
    && (forall i: nat, k: nat :: i >= |db.issues| ==> PaidTotal(db.payments, i, k) == 0)
  }

  // ---- Which coupon is next ----

  lemma {:induction false} NextIsFirstUnpaid(cs: seq<Coupon>)
    requires Increasing(Dates(cs)) && (forall j, k :: 0 <= j < k < |cs| && cs[k].paid ==> cs[j].paid)
    ensures NextDue(cs) == -1 ==> forall k :: 0 <= k < |cs| ==> cs[k].paid
    ensures NextDue(cs) >= 0 ==> forall k :: 0 <= k < |cs| ==> (cs[k].paid <==> k < NextDue(cs))
  {
    if cs != [] {
      var n := |cs| - 1;
      var front := cs[..n];
      assert Increasing(Dates(front)) by {
        forall a, b | 0 <= a < b < |Dates(front)|
          ensures Dates(front)[a].Before(Dates(front)[b])
        {
          assert Dates(cs)[a].Before(Dates(cs)[b]);
        }
      }
      NextIsFirstUnpaid(front);
      var r := NextDue(front);
      if r >= 0 {
        assert Dates(cs)[r].Before(Dates(cs)[n]);
      }
    }
  }

  // ---- What a payout pays ----

  lemma PayHolderPayments(db: Db, issue: nat, coupon: nat, perUnit: int, h: nat, i: nat, k: nat)
    requires perUnit >= 0 && QuantityOf(db.positions, Holding(h, issue)) > 0
    ensures PaidTotal(PayHolder(db, issue, coupon, perUnit, h).payments, i, k)
         == PaidTotal(db.payments, i, k)
            + (if i == issue && k == coupon then perUnit * QuantityOf(db.positions, Holding(h, issue)) else 0)
  {
    hide PaidTotal, AddCash, QuantityOf;
    var q := QuantityOf(db.positions, Holding(h, issue));
    PaymentsSnoc(db.payments, Payment(issue, coupon, h, perUnit * q), i, k);
    MulAtLeast(q, 0, perUnit);
  }

  lemma {:induction false} PayHoldersPayments(
      db: Db, issue: nat, coupon: nat, perUnit: int, order: seq<nat>, i: nat, k: nat)
    requires perUnit >= 0 && forall h: nat :: h in order ==> QuantityOf(db.positions, Holding(h, issue)) > 0
    ensures PaidTotal(PayHolders(db, issue, coupon, perUnit, order).payments, i, k)
         == PaidTotal(db.payments, i, k)
            + (if i == issue && k == coupon then perUnit * QuantitySum(db.positions, issue, order) else 0)
  {
    hide PaidTotal, PayHolder, QuantityOf;
    if order != [] {
      var front, h := order[..|order| - 1], order[|order| - 1];
      assert forall x: nat :: x in front ==> x in order;
      assert h in order;
      PayHoldersPayments(db, issue, coupon, perUnit, front, i, k);
      PayHoldersFrame(db, issue, coupon, perUnit, front);
      PayHolderPayments(PayHolders(db, issue, coupon, perUnit, front), issue, coupon, perUnit, h, i, k);
      MulDistribute(QuantitySum(db.positions, issue, front), QuantityOf(db.positions, Holding(h, issue)), perUnit);
    }
  }

  /**
   * What paying a due coupon does: it marks the first unpaid coupon, whose date has come, and pays its
   * scheduled amount for every unit that was placed.
   */
  lemma PayCouponPays(db: Db, issue: nat, asOf: Date, order: seq<nat>, i: nat, k: nat)
    requires WellFormed(db) && QuantityInv(db) && CouponInv(db) && IsHolders(db.positions, issue, order)
    requires CouponIsDue(db, issue, asOf)
    ensures var coupon, cs := NextDue(db.schedules[issue]), db.schedules[issue];
            var db' := AfterPayCoupon(db, issue, asOf, order);
            && 0 <= coupon < |cs|
            && !asOf.Before(cs[coupon].date)
            && (forall j :: 0 <= j < |cs| ==> (cs[j].paid <==> j < coupon))
            && db'.schedules == db.schedules[issue := cs[coupon := cs[coupon].(paid := true)]]
            && db'.issues == db.issues
            && PaidTotal(db'.payments, i, k)
               == PaidTotal(db.payments, i, k)
                  + (if i == issue && k == coupon then cs[coupon].amount * db.issues[issue].placed else 0)
  {
    var c, cs := db.issues[issue], db.schedules[issue];
    assert ValidIssue(c) && ScheduleInv(c, cs) && QuantitiesAddUp(db, issue);
    DueHasNext(cs, asOf);
    NextIsFirstUnpaid(cs);
    PerUnitNonNegative(c);
    var perUnit := PerUnit(c.nominal, c.rate, c.frequency);
    HoldersHoldAll(db.positions, issue, order, |db.investors|);
    hide NextDue, PerUnit, HeldBy, Redemptions, RedeemedTotal, QuantitySum, PaidTotal, PayHolders, ValidIssue,
         PaymentsInv;
    PayHoldersPayments(db, issue, NextDue(cs), perUnit, order, i, k);
    PayHoldersFrame(db, issue, NextDue(cs), perUnit, order);
  }

  // ---- The invariant ----

  lemma PayKeepsSchedule(i: Issue, cs: seq<Coupon>, n: nat)
    requires ScheduleInv(i, cs) && i.status.Active? && n < |cs|
    requires forall j :: 0 <= j < |cs| ==> (cs[j].paid <==> j < n)
    ensures ScheduleInv(i, cs[n := cs[n].(paid := true)])
  {
    hide PerUnit;
    assert Dates(cs[n := cs[n].(paid := true)]) == Dates(cs);
  }

  lemma PayCouponInv(db: Db, issue: nat, asOf: Date, order: seq<nat>)
    requires WellFormed(db) && QuantityInv(db) && CouponInv(db) && IsHolders(db.positions, issue, order)
    ensures CouponInv(AfterPayCoupon(db, issue, asOf, order))
  {
    var db' := AfterPayCoupon(db, issue, asOf, order);
    if CouponIsDue(db, issue, asOf) {
      var n, cs := NextDue(db.schedules[issue]), db.schedules[issue];
      PayCouponPays(db, issue, asOf, order, 0, 0);
      forall i: nat, k: nat
        ensures PaidTotal(db'.payments, i, k)
             == PaidTotal(db.payments, i, k)
                + (if i == issue && k == n then cs[n].amount * db.issues[issue].placed else 0)
      {
        PayCouponPays(db, issue, asOf, order, i, k);
      }
      hide WellFormed, QuantityInv, NextDue, AfterPayCoupon, PaidTotal, ScheduleInv, IsHolders, AnyDue;
      PayKeepsSchedule(db.issues[issue], cs, n);
    }
  }

  lemma FreshScheduleInv(i: Issue)
    requires i.frequency in {1, 2, 4} && i.issued.Valid() && i.maturity.Valid() && i.issued.Before(i.maturity)
    ensures ScheduleInv(i, Schedule(i)) && (forall k :: 0 <= k < |Schedule(i)| ==> !Schedule(i)[k].paid)
  {
    hide CouponDates, PerUnit;
    CouponDatesProperties(i.issued, i.maturity, i.frequency);
    assert Dates(Schedule(i)) == CouponDates(i.issued, i.maturity, i.frequency);
  }

  lemma NewIssueCoupons(db: Db, op: Op)
    requires op.NewIssue? && CouponInv(db)
    ensures CouponInv(AfterNewIssue(db, op))
  {
    if ValidTerms(op) {
      var issue := Issue(op.nominal, op.rate, op.frequency, op.issued, op.maturity, op.total, 0, Draft);
      FreshScheduleInv(issue);
      hide Schedule, ScheduleInv, PaidTotal, ValidTerms;
    }
  }

  /** A status change, a placement or a redemption touches no paid coupon's issue terms. */
  lemma IssueChangeKeepsCoupons(db: Db, db': Db, issue: nat)
    requires CouponInv(db) && issue < |db.issues|
    requires db'.schedules == db.schedules && db'.payments == db.payments
    requires var i := db'.issues; |i| == |db.issues| && i == db.issues[issue := i[issue]]
    requires var i, j := db.issues[issue], db'.issues[issue];
             && j == i.(placed := j.placed, status := j.status)
             && (i.status.Active? || i.status.Matured? ==>
                   j.placed == i.placed && (j.status.Active? || j.status.Matured?))
    ensures CouponInv(db')
  {
    hide PerUnit, PaidTotal;
    assert ScheduleInv(db.issues[issue], db.schedules[issue]);
    forall k: nat | k != issue && k < |db.issues|
      ensures db'.issues[k] == db.issues[k]
    {
    }
    assert ScheduleInv(db'.issues[issue], db.schedules[issue]);
    hide ScheduleInv, Increasing;
    assert PaymentsInv(db.issues[issue], db.schedules[issue], db.payments, issue);
    assert PaymentsInv(db'.issues[issue], db.schedules[issue], db.payments, issue) by {
      UnpaidOrUnchanged(db.issues[issue], db'.issues[issue], db.schedules[issue], db.payments, issue);
    }
    hide PaymentsInv;
  }

  lemma UnpaidOrUnchanged(i: Issue, j: Issue, cs: seq<Coupon>, payments: seq<Payment>, issue: nat)
    requires ScheduleInv(i, cs) && PaymentsInv(i, cs, payments, issue)
    requires i.status.Active? || i.status.Matured? ==> j.placed == i.placed
    ensures PaymentsInv(j, cs, payments, issue)
  {
  }

  lemma NextCoupons(db: Db, op: Op)
    requires WellFormed(db) && QuantityInv(db) && CouponInv(db) && Sound(db, op)
    ensures CouponInv(Next(db, op))
  {
    match op
    case NewIssue(_, _, _, _, _, _) =>
      hide CouponInv, AfterNewIssue;
      NewIssueCoupons(db, op);
    case PayCoupon(issue, asOf, order) =>
      hide CouponInv, AfterPayCoupon, WellFormed, QuantityInv;
      PayCouponInv(db, issue, asOf, order);
    case UpdateStatus(issue, next) =>
      hide CouponInv, WellFormed, QuantityInv;
      if Next(db, op) != db {
        IssueChangeKeepsCoupons(db, Next(db, op), issue);
      }
    case Place(issue, investor, quantity, price) =>
      hide CouponInv, WellFormed, QuantityInv, Credit;
      if CanPlace(db, issue, investor, quantity, price) {
        IssueChangeKeepsCoupons(db, Next(db, op), issue);
      }
    case Redeem(issue, asOf, order) =>
      hide CouponInv, WellFormed, QuantityInv, RedeemHolders, ZeroOut, QuantitySum;
      if IsMaturing(db, issue, asOf) {
        RedeemHoldersFrame(db, issue, db.issues[issue].nominal, order);
        IssueChangeKeepsCoupons(db, Next(db, op), issue);
      }
    case _ =>
      hide WellFormed, QuantityInv, ScheduleInv, PaymentsInv, PaidTotal, Credit, Debit, CanSettle;
      assert Next(db, op).schedules == db.schedules && Next(db, op).payments == db.payments;
      assert Next(db, op).issues == db.issues;
  }

  lemma {:induction false} RunCoupons(ops: seq<Op>, states: seq<Db>, n: nat)
    requires IsRun(ops, states) && n < |states|
    ensures WellFormed(states[n]) && QuantityInv(states[n]) && CouponInv(states[n])
  {
    hide WellFormed, QuantityInv, CouponInv, Next, Sound;
    if n == 0 {
      EmptyInv();
    } else {
      RunCoupons(ops, states, n - 1);
      NextWellFormed(states[n - 1], ops[n - 1]);
      NextQuantities(states[n - 1], ops[n - 1]);
      NextCoupons(states[n - 1], ops[n - 1]);
    }
  }

  lemma EmptyInv()
    ensures WellFormed(EMPTY) && QuantityInv(EMPTY) && CouponInv(EMPTY)
  {
  }

  /**
   * After every serial run: of each issue's coupons a prefix in date order is paid, each of those paid
   * out its scheduled amount times the quantity placed, and nothing was paid for any other.
   */
  lemma EveryRunPaysCouponsInOrder(ops: seq<Op>, states: seq<Db>, n: nat, i: nat, k: nat)
    requires IsRun(ops, states) && n < |states| && i < |states[n].issues|
    ensures |states[n].schedules| == |states[n].issues| && Increasing(Dates(states[n].schedules[i]))
    ensures k < |states[n].schedules[i]| && states[n].schedules[i][k].paid ==>
              (forall j :: 0 <= j < k ==> states[n].schedules[i][j].paid)
    ensures PaidTotal(states[n].payments, i, k)
         == if k < |states[n].schedules[i]| && states[n].schedules[i][k].paid
            then states[n].schedules[i][k].amount * states[n].issues[i].placed else 0
  {
    RunCoupons(ops, states, n);
    hide WellFormed, QuantityInv, PaidTotal;
    assert ScheduleInv(states[n].issues[i], states[n].schedules[i]);
    assert PaymentsInv(states[n].issues[i], states[n].schedules[i], states[n].payments, i);
  }

  /** The step that paid a coupon, and the day it was run for. */
  ghost predicate PaidAt(op: Op, db: Db, db': Db, i: nat, k: nat) {
    && i < |db.schedules| && k < |db.schedules[i]| && i < |db'.schedules| && k < |db'.schedules[i]|
    && op.PayCoupon? && op.issue == i
    && !db.schedules[i][k].paid && db'.schedules[i][k].paid
    && !op.asOf.Before(db'.schedules[i][k].date)
  }

  lemma SchedulesOnlyGrow(db: Db, op: Op, i: nat, k: nat)
    requires WellFormed(db) && QuantityInv(db) && CouponInv(db) && Sound(db, op)
    requires var db' := Next(db, op); i < |db'.schedules| && k < |db'.schedules[i]| && db'.schedules[i][k].paid
    ensures var db' := Next(db, op);
            PaidAt(op, db, db', i, k)
            || (i < |db.schedules| && k < |db.schedules[i]| && db.schedules[i][k] == db'.schedules[i][k])
  {
    match op
    case PayCoupon(issue, asOf, order) =>
      if CouponIsDue(db, issue, asOf) {
        PayCouponPays(db, issue, asOf, order, 0, 0);
        hide WellFormed, QuantityInv, CouponInv, AfterPayCoupon, IsHolders, AnyDue, NextDue, PaidTotal;
      }
    case Redeem(issue, asOf, order) =>
      hide WellFormed, QuantityInv, CouponInv, RedeemHolders, ZeroOut, QuantitySum;
      if IsMaturing(db, issue, asOf) {
        RedeemHoldersFrame(db, issue, db.issues[issue].nominal, order);
      }
    case _ => hide WellFormed, QuantityInv, CouponInv, PayHolders, RedeemHolders, Credit, Debit, CanSettle, CouponDates;
  }

  /** No coupon is paid before its date: the step that paid it was run for that day or a later one. */
  lemma {:induction false} NoCouponIsEarly(ops: seq<Op>, states: seq<Db>, n: nat, i: nat, k: nat)
    requires IsRun(ops, states) && n < |states|
    requires i < |states[n].schedules| && k < |states[n].schedules[i]| && states[n].schedules[i][k].paid
    ensures exists m :: 0 <= m < n && PaidAt(ops[m], states[m], states[m + 1], i, k)
                        && states[m + 1].schedules[i][k] == states[n].schedules[i][k]
  {
    hide WellFormed, QuantityInv, CouponInv, Next, Sound;
    if n > 0 {
      RunCoupons(ops, states, n - 1);
      SchedulesOnlyGrow(states[n - 1], ops[n - 1], i, k);
      if !PaidAt(ops[n - 1], states[n - 1], states[n], i, k) {
        NoCouponIsEarly(ops, states, n - 1, i, k);
        var m :| 0 <= m < n - 1 && PaidAt(ops[m], states[m], states[m + 1], i, k)
                 && states[m + 1].schedules[i][k] == states[n - 1].schedules[i][k];
        assert states[m + 1].schedules[i][k] == states[n].schedules[i][k];
      } else {
        var m := n - 1;
        assert PaidAt(ops[m], states[m], states[m + 1], i, k);
      }
    }
  }
}
