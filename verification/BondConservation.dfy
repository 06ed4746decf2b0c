/** Conservation over whole runs of the bond ledger: quantities, cash, and the log as the books. */
module BondConservation {
  import opened Options
  import opened Arithmetic
  import opened Calendar
  import opened Bonds
  import opened BondHoldings
  import opened BondLedger

  // ---- Quantities ----

  /** An issue's positions add up to what was placed until it is redeemed, which happens at most once. */
  predicate QuantitiesAddUp(db: Db, issue: nat)
    requires issue < |db.issues|
  {
    && HeldBy(db.positions, issue, |db.investors|)
       == (if Redemptions(db.log, issue) == 0 then db.issues[issue].placed else 0)
    && Redemptions(db.log, issue) <= 1
    && (Redemptions(db.log, issue) == 1 ==> db.issues[issue].status.Matured?)
    && RedeemedTotal(db.log, issue)
       == (if Redemptions(db.log, issue) == 0 then 0 else db.issues[issue].nominal * db.issues[issue].placed)
  }

  ghost predicate QuantityInv(db: Db) {
    && (forall i: nat :: i < |db.issues| ==> QuantitiesAddUp(db, i))
    && (forall i: nat :: i >= |db.issues| ==> Redemptions(db.log, i) == 0 && RedeemedTotal(db.log, i) == 0)
  }

  /** Operations whose events are not about redemption leave these counts alone. */
  lemma QuietEvent(log: seq<Event>, e: Event, issue: nat)
    requires !e.IssueMatured? && !e.HolderMatured?
    ensures Redemptions(log + [e], issue) == Redemptions(log, issue)
    ensures RedeemedTotal(log + [e], issue) == RedeemedTotal(log, issue)
  {
    hide Replay, Flow;
    LogSnoc(log, e, issue);
  }

  lemma PlaceQuantities(db: Db, issue: nat, investor: nat, quantity: int, price: int, i: nat)
    requires WellFormed(db) && i < |db.issues| && QuantitiesAddUp(db, i)
    requires CanPlace(db, issue, investor, quantity, price)
    ensures QuantitiesAddUp(AfterPlace(db, issue, investor, quantity, price), i)
  {
    hide Credit, HeldBy, Redemptions, RedeemedTotal;
    HeldByCredit(db.positions, Holding(investor, issue), quantity, price, i, |db.investors|);
    QuietEvent(db.log, IssuePlaced(issue, investor, quantity, price, price * quantity), i);
  }

  lemma SettleQuantities(db: Db, trade: nat, accrued: nat, i: nat)
    requires WellFormed(db) && i < |db.issues| && QuantitiesAddUp(db, i)
    requires trade < |db.trades| && CanSettle(db, db.trades[trade], Some(accrued)) && db.trades[trade].quantity > 0
    ensures QuantitiesAddUp(AfterSettle(db, trade, accrued), i)
  {
    hide Credit, HeldBy, Redemptions, RedeemedTotal, ValidIssue;
    var t := db.trades[trade];
    assert ValidTrade(db, t);
    var from, next := Holding(t.seller, t.issue), Holding(t.buyer, t.issue);
    HeldByDebit(db.positions, from, t.quantity, i, |db.investors|);
    HeldByCredit(Debit(db.positions, from, t.quantity), next, t.quantity, t.price, i, |db.investors|);
    var ac := accrued * t.quantity;
    QuietEvent(
      db.log, TradeSettled(trade, t.issue, t.seller, t.buyer, t.quantity, t.price, ac, t.price * t.quantity + ac), i);
  }

  lemma {:induction false} PayHoldersQuiet(db: Db, issue: nat, coupon: nat, perUnit: int, order: seq<nat>, i: nat)
    ensures var db' := PayHolders(db, issue, coupon, perUnit, order);
            Redemptions(db'.log, i) == Redemptions(db.log, i) && RedeemedTotal(db'.log, i) == RedeemedTotal(db.log, i)
  {
    hide Redemptions, RedeemedTotal, AddCash;
    if order != [] {
      var h := order[|order| - 1];
      var d := PayHolders(db, issue, coupon, perUnit, order[..|order| - 1]);
      PayHoldersQuiet(db, issue, coupon, perUnit, order[..|order| - 1], i);
      var q := QuantityOf(d.positions, Holding(h, issue));
      QuietEvent(d.log, CouponPaid(issue, coupon, h, q, perUnit * q), i);
    }
  }

  lemma PayCouponQuantities(db: Db, issue: nat, asOf: Date, order: seq<nat>, i: nat)
    requires i < |db.issues| && QuantitiesAddUp(db, i) && CouponIsDue(db, issue, asOf)
    ensures |AfterPayCoupon(db, issue, asOf, order).issues| == |db.issues|
    ensures QuantitiesAddUp(AfterPayCoupon(db, issue, asOf, order), i)
  {
    hide Redemptions, RedeemedTotal, HeldBy, PerUnit;
    DueHasNext(db.schedules[issue], asOf);
    var c, coupon := db.issues[issue], NextDue(db.schedules[issue]);
    PayHoldersFrame(db, issue, coupon, PerUnit(c.nominal, c.rate, c.frequency), order);
    PayHoldersQuiet(db, issue, coupon, PerUnit(c.nominal, c.rate, c.frequency), order, i);
  }

  lemma RedeemHolderTotal(db: Db, issue: nat, nominal: int, h: nat, i: nat)
    ensures var db' := RedeemHolder(db, issue, nominal, h);
            && Redemptions(db'.log, i) == Redemptions(db.log, i)
            && RedeemedTotal(db'.log, i)
               == RedeemedTotal(db.log, i)
                  + (if i == issue then nominal * QuantityOf(db.positions, Holding(h, issue)) else 0)
  {
    hide Redemptions, RedeemedTotal, AddCash, QuantityOf, Replay, Flow;
    var q := QuantityOf(db.positions, Holding(h, issue));
    LogSnoc(db.log, HolderMatured(issue, h, q, nominal * q), i);
  }

  lemma {:induction false} RedeemHoldersTotal(db: Db, issue: nat, nominal: int, order: seq<nat>, i: nat)
    ensures var db' := RedeemHolders(db, issue, nominal, order);
            && Redemptions(db'.log, i) == Redemptions(db.log, i)
            && RedeemedTotal(db'.log, i)
               == RedeemedTotal(db.log, i)
                  + (if i == issue then nominal * QuantitySum(db.positions, issue, order) else 0)
  {
    hide Redemptions, RedeemedTotal, RedeemHolder, QuantityOf;
    if order != [] {
      var front, h := order[..|order| - 1], order[|order| - 1];
      RedeemHoldersTotal(db, issue, nominal, front, i);
      RedeemHoldersFrame(db, issue, nominal, front);
      RedeemHolderTotal(RedeemHolders(db, issue, nominal, front), issue, nominal, h, i);
      MulDistribute(QuantitySum(db.positions, issue, front), QuantityOf(db.positions, Holding(h, issue)), nominal);
    }
  }

  lemma RedeemQuantities(db: Db, issue: nat, asOf: Date, order: seq<nat>, i: nat)
    requires WellFormed(db) && i < |db.issues| && QuantitiesAddUp(db, i)
    requires IsMaturing(db, issue, asOf) && IsHolders(db.positions, issue, order)
    ensures QuantitiesAddUp(AfterRedeem(db, issue, asOf, order), i)
  {
    hide Redemptions, RedeemedTotal, HeldBy, QuantitySum, RedeemHolders, ValidIssue, IsHolders;
    var nominal := db.issues[issue].nominal;
    var paid := RedeemHolders(db, issue, nominal, order);
    var n := |db.investors|;
    RedeemHoldersTotal(db, issue, nominal, order, i);
    RedeemHoldersFrame(db, issue, nominal, order);
    LogSnoc(paid.log, IssueMatured(issue, |order|, nominal * QuantitySum(db.positions, issue, order)), i);
    if i == issue {
      HoldersHoldAll(db.positions, issue, order, n);
    } else {
      HeldBySame(db.positions, ZeroOut(db.positions, issue), i, n);
    }
  }

  lemma QuietQuantities(db: Db, op: Op)
    requires WellFormed(db) && QuantityInv(db)
    requires op.NewInvestor? || op.NewIssue? || op.UpdateStatus? || op.Deposit? || op.NewTrade?
    ensures QuantityInv(Next(db, op))
  {
    hide Redemptions, RedeemedTotal, Schedule, ValidTrade;
    var db' := Next(db, op);
    if db'.log != db.log {
      var e := db'.log[|db.log|];
      assert db'.log == db.log + [e];
      forall i: nat
        ensures Redemptions(db'.log, i) == Redemptions(db.log, i)
        ensures RedeemedTotal(db'.log, i) == RedeemedTotal(db.log, i)
      {
        QuietEvent(db.log, e, i);
      }
    }
    forall i: nat | i < |db.issues|
      ensures QuantitiesAddUp(db', i)
    {
      assert QuantitiesAddUp(db, i);
      NobodyNewHolds(db, db', i);
    }
    if op.NewIssue? && |db'.issues| > |db.issues| {
      HeldByNothing(db'.positions, |db.issues|, |db.investors|);
    }
  }

  lemma NobodyNewHolds(db: Db, db': Db, i: nat)
    requires WellFormed(db) && db'.positions == db.positions
    requires |db'.investors| == |db.investors| || |db'.investors| == |db.investors| + 1
    ensures HeldBy(db'.positions, i, |db'.investors|) == HeldBy(db.positions, i, |db.investors|)
  {
  }

  lemma NextQuantities(db: Db, op: Op)
    requires WellFormed(db) && QuantityInv(db) && Sound(db, op)
    ensures QuantityInv(Next(db, op))
  {
    var db' := Next(db, op);
    if op.NewInvestor? || op.NewIssue? || op.UpdateStatus? || op.Deposit? || op.NewTrade? {
      hide WellFormed, QuantityInv, Next, Sound;
      QuietQuantities(db, op);
    } else {
      assert |db'.issues| == |db.issues| by { SameIssues(db, op); }
      forall i: nat | i < |db.issues|
        ensures QuantitiesAddUp(db', i)
      {
        hide WellFormed, QuantitiesAddUp;
        BusyQuantities(db, op, i);
      }
      forall i: nat | i >= |db.issues|
        ensures Redemptions(db'.log, i) == 0 && RedeemedTotal(db'.log, i) == 0
      {
        BusyElsewhere(db, op, i);
      }
    }
  }

  lemma SameIssues(db: Db, op: Op)
    requires op.Place? || op.ProcessTrade? || op.PayCoupon? || op.Redeem?
    ensures |Next(db, op).issues| == |db.issues|
  {
    hide PerUnit, Credit;
    match op
    case PayCoupon(issue, asOf, order) =>
      if CouponIsDue(db, issue, asOf) {
        var c, coupon := db.issues[issue], NextDue(db.schedules[issue]);
        DueHasNext(db.schedules[issue], asOf);
        PayHoldersFrame(db, issue, coupon, PerUnit(c.nominal, c.rate, c.frequency), order);
      }
    case _ =>
  }

  lemma TradeQuantities(db: Db, trade: nat, accrued: Option<nat>, i: nat)
    requires WellFormed(db) && i < |db.issues| && QuantitiesAddUp(db, i)
    requires |AfterProcessTrade(db, trade, accrued).issues| == |db.issues|
    ensures QuantitiesAddUp(AfterProcessTrade(db, trade, accrued), i)
  {
    if trade < |db.trades| && db.trades[trade].status.Submitted? {
      if CanSettle(db, db.trades[trade], accrued) && db.trades[trade].quantity > 0 {
        SettleQuantities(db, trade, accrued.value, i);
      } else {
        hide WellFormed, CanSettle, AfterSettle, Redemptions, RedeemedTotal, HeldBy;
        QuietEvent(db.log, TradeFailed(trade), i);
      }
    }
  }

  lemma BusyQuantities(db: Db, op: Op, i: nat)
    requires op.Place? || op.ProcessTrade? || op.PayCoupon? || op.Redeem?
    requires WellFormed(db) && i < |db.issues| && QuantitiesAddUp(db, i) && Sound(db, op)
    ensures |Next(db, op).issues| == |db.issues| && QuantitiesAddUp(Next(db, op), i)
  {
    hide WellFormed, AfterPlace, AfterSettle, AfterPayCoupon, AfterRedeem;
    SameIssues(db, op);
    match op
    case Place(issue, investor, quantity, price) =>
      if CanPlace(db, issue, investor, quantity, price) {
        PlaceQuantities(db, issue, investor, quantity, price, i);
      } else {
        Refused(db, op);
      }
    case ProcessTrade(trade, accrued) =>
      hide AfterProcessTrade;
      TradeQuantities(db, trade, accrued, i);
    case PayCoupon(issue, asOf, order) =>
      if CouponIsDue(db, issue, asOf) {
        PayCouponQuantities(db, issue, asOf, order, i);
      } else {
        Refused(db, op);
      }
    case Redeem(issue, asOf, order) =>
      if IsMaturing(db, issue, asOf) {
        RedeemQuantities(db, issue, asOf, order, i);
      } else {
        Refused(db, op);
      }
    case _ =>
  }

  lemma Refused(db: Db, op: Op)
    requires op.Place? ==> !CanPlace(db, op.issue, op.investor, op.quantity, op.price)
    requires op.PayCoupon? ==> !CouponIsDue(db, op.issue, op.asOf)
    requires op.Redeem? ==> !IsMaturing(db, op.issue, op.asOf)
    requires op.Place? || op.PayCoupon? || op.Redeem?
    ensures Next(db, op) == db
  {
  }

  lemma TradeElsewhere(db: Db, trade: nat, accrued: Option<nat>, i: nat)
    ensures Redemptions(AfterProcessTrade(db, trade, accrued).log, i) == Redemptions(db.log, i)
    ensures RedeemedTotal(AfterProcessTrade(db, trade, accrued).log, i) == RedeemedTotal(db.log, i)
  {
    hide Redemptions, RedeemedTotal, Credit, Debit;
    QuietEvent(db.log, TradeFailed(trade), i);
    if trade < |db.trades| && accrued.Some? {
      var t, ac := db.trades[trade], accrued.value * db.trades[trade].quantity;
      QuietEvent(
        db.log, TradeSettled(trade, t.issue, t.seller, t.buyer, t.quantity, t.price, ac, t.price * t.quantity + ac), i);
    }
  }

  lemma PayCouponElsewhere(db: Db, issue: nat, asOf: Date, order: seq<nat>, i: nat)
    ensures Redemptions(AfterPayCoupon(db, issue, asOf, order).log, i) == Redemptions(db.log, i)
    ensures RedeemedTotal(AfterPayCoupon(db, issue, asOf, order).log, i) == RedeemedTotal(db.log, i)
  {
    hide Redemptions, RedeemedTotal, PerUnit;
    if CouponIsDue(db, issue, asOf) {
      var c, coupon := db.issues[issue], NextDue(db.schedules[issue]);
      DueHasNext(db.schedules[issue], asOf);
      PayHoldersQuiet(db, issue, coupon, PerUnit(c.nominal, c.rate, c.frequency), order, i);
    }
  }

  lemma RedeemElsewhere(db: Db, issue: nat, asOf: Date, order: seq<nat>, i: nat)
    requires i >= |db.issues|
    ensures Redemptions(AfterRedeem(db, issue, asOf, order).log, i) == Redemptions(db.log, i)
    ensures RedeemedTotal(AfterRedeem(db, issue, asOf, order).log, i) == RedeemedTotal(db.log, i)
  {
    hide Redemptions, RedeemedTotal, RedeemHolders, QuantitySum, ZeroOut, Replay, Flow;
    if IsMaturing(db, issue, asOf) {
      var nominal := db.issues[issue].nominal;
      RedeemHoldersTotal(db, issue, nominal, order, i);
      LogSnoc(RedeemHolders(db, issue, nominal, order).log,
              IssueMatured(issue, |order|, nominal * QuantitySum(db.positions, issue, order)), i);
    }
  }

  lemma BusyElsewhere(db: Db, op: Op, i: nat)
    requires op.Place? || op.ProcessTrade? || op.PayCoupon? || op.Redeem?
    requires i >= |db.issues|
    ensures Redemptions(Next(db, op).log, i) == Redemptions(db.log, i)
    ensures RedeemedTotal(Next(db, op).log, i) == RedeemedTotal(db.log, i)
  {
    hide Redemptions, RedeemedTotal, Credit, CanPlace, AfterProcessTrade, AfterPayCoupon, AfterRedeem;
    match op
    case Place(issue, investor, quantity, price) =>
      QuietEvent(db.log, IssuePlaced(issue, investor, quantity, price, price * quantity), i);
    case ProcessTrade(trade, accrued) => TradeElsewhere(db, trade, accrued, i);
    case PayCoupon(issue, asOf, order) => PayCouponElsewhere(db, issue, asOf, order, i);
    case Redeem(issue, asOf, order) => RedeemElsewhere(db, issue, asOf, order, i);
    case _ =>
  }
}
