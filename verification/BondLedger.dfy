/** What every serial run of the bond ledger keeps. */
module BondLedger {
  import opened Options
  import opened Arithmetic
  import opened Calendar
  import opened Bonds
  import opened BondHoldings

  // ---- Reading the log ----

  /** Cash that entered the accounts minus cash that left them; trades only move it. */
  function FlowOf(e: Event): int {
    match e
    case Deposited(_, amount) => amount
    case IssuePlaced(_, _, _, _, cost) => -cost
    case CouponPaid(_, _, _, _, amount) => amount
    case HolderMatured(_, _, _, redeemed) => redeemed
    case _ => 0
  }

  function Flow(log: seq<Event>): int {
    if log == [] then 0 else Flow(log[..|log| - 1]) + FlowOf(log[|log| - 1])
  }

  /** How often the issue was redeemed, and what its holders were paid for it. */
  function Redemptions(log: seq<Event>, issue: nat): nat {
    if log == [] then 0
    else
      var e := log[|log| - 1];
      Redemptions(log[..|log| - 1], issue) + if e.IssueMatured? && e.issue == issue then 1 else 0
  }

  function RedeemedTotal(log: seq<Event>, issue: nat): int {
    if log == [] then 0
    else
      var e := log[|log| - 1];
      RedeemedTotal(log[..|log| - 1], issue) + if e.HolderMatured? && e.issue == issue then e.redeemed else 0
  }

  /** What can be rebuilt from the log alone. */
  datatype Books = Books(cash: map<nat, int>, positions: map<Holding, Position>)

  function CashOf(cash: map<nat, int>, investor: nat): int {
    if investor in cash then cash[investor] else 0
  }

  function Move(b: Books, investor: nat, delta: int): Books {
    b.(cash := b.cash[investor := CashOf(b.cash, investor) + delta])
  }

  function Apply(b: Books, e: Event): Books {
    match e
    case Deposited(investor, amount) => Move(b, investor, amount)
    case IssuePlaced(issue, investor, quantity, price, cost) =>
      if quantity <= 0 then b
      else Move(b, investor, -cost).(positions := Credit(b.positions, Holding(investor, issue), quantity, price))
    case TradeSettled(_, issue, seller, buyer, quantity, price, _, total) =>
      if quantity <= 0 then b
      else
        var sold := Debit(b.positions, Holding(seller, issue), quantity);
        Move(Move(b, buyer, -total), seller, total).(
          positions := Credit(sold, Holding(buyer, issue), quantity, price))
    case CouponPaid(_, _, investor, _, amount) => Move(b, investor, amount)
    case HolderMatured(issue, investor, quantity, redeemed) =>
      Move(b, investor, redeemed).(positions := Debit(b.positions, Holding(investor, issue), quantity))
    case _ => b
  }

  function Replay(log: seq<Event>): Books {
    if log == [] then Books(map[], map[]) else Apply(Replay(log[..|log| - 1]), log[|log| - 1])
  }

  lemma LogSnoc(log: seq<Event>, e: Event, issue: nat)
    ensures Flow(log + [e]) == Flow(log) + FlowOf(e)
    ensures Replay(log + [e]) == Apply(Replay(log), e)
    ensures Redemptions(log + [e], issue)
         == Redemptions(log, issue) + (if e.IssueMatured? && e.issue == issue then 1 else 0)
    ensures RedeemedTotal(log + [e], issue)
         == RedeemedTotal(log, issue) + (if e.HolderMatured? && e.issue == issue then e.redeemed else 0)
  {
    assert (log + [e])[..|log|] == log;
  }

  // ---- Well-formed tables ----

  predicate ValidIssue(i: Issue) {
    && i.frequency in {1, 2, 4} && i.nominal > 0 && i.rate >= 0 && i.issued.Valid()
    && 0 <= i.placed <= i.total
    && (i.status.Draft? ==> i.placed == 0)
  }

  predicate ValidTrade(db: Db, t: Trade) {
    t.quantity > 0 && t.price > 0 && t.seller != t.buyer && t.seller < |db.investors| && t.buyer < |db.investors|
  }

  predicate PositionsInRange(ps: map<Holding, Position>, investors: nat, issues: nat) {
    forall k :: k in ps ==> k.investor < investors && k.issue < issues && ps[k].quantity >= 0
  }

  /** The tables' own constraints; quantities and balances are never negative. */
  predicate WellFormed(db: Db) {
    && |db.schedules| == |db.issues|
    && (forall i :: 0 <= i < |db.issues| ==> ValidIssue(db.issues[i]))
    && (forall t :: 0 <= t < |db.trades| ==> ValidTrade(db, db.trades[t]))
    && (forall h :: 0 <= h < |db.investors| ==> db.investors[h] >= 0)
    && PositionsInRange(db.positions, |db.investors|, |db.issues|)
  }

  lemma PerUnitNonNegative(i: Issue)
    requires ValidIssue(i)
    ensures PerUnit(i.nominal, i.rate, i.frequency) >= 0
  {
    MulAtLeast(i.nominal, 0, i.rate);
    RoundDivNonNegative(i.nominal * i.rate, i.frequency);
    RoundDivNonNegative(RoundDiv(i.nominal * i.rate, i.frequency), TEN_10);
  }

  lemma {:induction false} PayHoldersWellFormed(db: Db, issue: nat, coupon: nat, perUnit: int, order: seq<nat>)
    requires WellFormed(db) && forall h: nat :: h in order ==> h < |db.investors|
    ensures WellFormed(PayHolders(db, issue, coupon, perUnit, order))
  {
    hide ValidIssue, PositionsInRange;
    if order != [] {
      var front := order[..|order| - 1];
      assert forall h: nat :: h in front ==> h in order;
      PayHoldersWellFormed(db, issue, coupon, perUnit, front);
      PayHoldersFrame(db, issue, coupon, perUnit, front);
      assert order[|order| - 1] in order;
    }
  }

  lemma {:induction false} RedeemHoldersWellFormed(db: Db, issue: nat, nominal: int, order: seq<nat>)
    requires WellFormed(db) && nominal > 0 && forall h: nat :: h in order ==> h < |db.investors|
    ensures WellFormed(RedeemHolders(db, issue, nominal, order))
  {
    if order != [] {
      var front, last := order[..|order| - 1], order[|order| - 1];
      assert forall h: nat :: h in front ==> h in order;
      RedeemHoldersWellFormed(db, issue, nominal, front);
      RedeemHoldersFrame(db, issue, nominal, front);
      assert last in order;
      var q := QuantityOf(db.positions, Holding(last, issue));
      MulAtLeast(q, 0, nominal);
      hide ValidIssue, PositionsInRange;
      assert nominal * q >= 0;
    }
  }

  lemma HoldersExist(db: Db, issue: nat, order: seq<nat>)
    requires WellFormed(db) && IsHolders(db.positions, issue, order)
    ensures forall h: nat :: h in order ==> h < |db.investors|
  {
    HoldersHoldAll(db.positions, issue, order, |db.investors|);
  }

  lemma SettleWellFormed(db: Db, trade: nat, accrued: nat)
    requires WellFormed(db) && trade < |db.trades| && CanSettle(db, db.trades[trade], Some(accrued))
    ensures WellFormed(AfterSettle(db, trade, accrued))
  {
    hide Average, ValidIssue;
    var t := db.trades[trade];
    assert ValidTrade(db, t);
    MulAtLeast(accrued, 0, t.quantity);
    MulAtLeast(t.price, 0, t.quantity);
    assert accrued * t.quantity >= 0 && t.price * t.quantity >= 0;
  }

  lemma PlaceWellFormed(db: Db, issue: nat, investor: nat, quantity: int, price: int)
    requires WellFormed(db)
    ensures WellFormed(AfterPlace(db, issue, investor, quantity, price))
  {
    hide Average;
    if CanPlace(db, issue, investor, quantity, price) {
      assert ValidIssue(db.issues[issue]);
    }
  }

  lemma RedeemWellFormed(db: Db, issue: nat, asOf: Date, order: seq<nat>)
    requires WellFormed(db) && IsHolders(db.positions, issue, order)
    ensures WellFormed(AfterRedeem(db, issue, asOf, order))
  {
    if IsMaturing(db, issue, asOf) {
      HoldersExist(db, issue, order);
      assert ValidIssue(db.issues[issue]);
      RedeemHoldersWellFormed(db, issue, db.issues[issue].nominal, order);
      RedeemHoldersFrame(db, issue, db.issues[issue].nominal, order);
      hide RedeemHolders, QuantitySum, IsHolders;
    }
  }

  lemma PayCouponWellFormed(db: Db, issue: nat, asOf: Date, order: seq<nat>)
    requires WellFormed(db) && IsHolders(db.positions, issue, order)
    ensures WellFormed(AfterPayCoupon(db, issue, asOf, order))
  {
    if CouponIsDue(db, issue, asOf) {
      HoldersExist(db, issue, order);
      DueHasNext(db.schedules[issue], asOf);
      var i, coupon := db.issues[issue], NextDue(db.schedules[issue]);
      PayHoldersWellFormed(db, issue, coupon, PerUnit(i.nominal, i.rate, i.frequency), order);
      PayHoldersFrame(db, issue, coupon, PerUnit(i.nominal, i.rate, i.frequency), order);
      hide PayHolders, IsHolders, NextDue, PerUnit, ValidIssue, PositionsInRange;
    }
  }

  lemma NextWellFormed(db: Db, op: Op)
    requires WellFormed(db) && Sound(db, op)
    ensures WellFormed(Next(db, op))
  {
    match op
    case Place(issue, investor, quantity, price) =>
      hide WellFormed, AfterPlace;
      PlaceWellFormed(db, issue, investor, quantity, price);
    case ProcessTrade(trade, accrued) =>
      if trade < |db.trades| && db.trades[trade].status.Submitted?
         && CanSettle(db, db.trades[trade], accrued) && db.trades[trade].quantity > 0 {
        hide WellFormed, AfterSettle;
        SettleWellFormed(db, trade, accrued.value);
      }
    case PayCoupon(issue, asOf, order) =>
      hide WellFormed, AfterPayCoupon;
      PayCouponWellFormed(db, issue, asOf, order);
    case Redeem(issue, asOf, order) =>
      hide WellFormed, AfterRedeem;
      RedeemWellFormed(db, issue, asOf, order);
    case _ => SimpleWellFormed(db, op);
  }

  lemma SimpleWellFormed(db: Db, op: Op)
    requires WellFormed(db)
    requires op.NewInvestor? || op.NewIssue? || op.UpdateStatus? || op.Deposit? || op.NewTrade?
    ensures WellFormed(Next(db, op))
  {
    hide Schedule, CouponDates;
    if op.UpdateStatus? && op.issue < |db.issues| {
      assert ValidIssue(db.issues[op.issue]);
    }
  }
}
