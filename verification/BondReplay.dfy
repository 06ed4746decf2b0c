/** The event log alone reproduces every balance and every position. */
module BondReplay {
  import opened Options
  import opened Arithmetic
  import opened Calendar
  import opened Bonds
  import opened BondHoldings
  import opened BondLedger

  ghost predicate CashAgrees(cash: map<nat, int>, investors: seq<int>) {
    forall h: nat :: CashOf(cash, h) == if h < |investors| then investors[h] else 0
  }

  /** Replaying the log from empty tables gives the tables. */
  ghost predicate LogIsTheBooks(db: Db) {
    CashAgrees(Replay(db.log).cash, db.investors) && Replay(db.log).positions == db.positions
  }

  /** All the cash there is came from outside, as the log says. */
  predicate CashAddsUp(db: Db) {
    Sum(db.investors) == Flow(db.log)
  }

  // ---- Single movements ----

  lemma MoveAgrees(b: Books, db: Db, h: nat, delta: int)
    requires CashAgrees(b.cash, db.investors) && h < |db.investors|
    ensures CashAgrees(Move(b, h, delta).cash, AddCash(db, h, delta).investors)
  {
    var cash', investors' := Move(b, h, delta).cash, AddCash(db, h, delta).investors;
    forall k: nat
      ensures CashOf(cash', k) == if k < |investors'| then investors'[k] else 0
    {
      assert CashOf(b.cash, k) == if k < |db.investors| then db.investors[k] else 0;
    }
  }

  lemma AddCashSum(db: Db, h: nat, delta: int)
    requires h < |db.investors|
    ensures Sum(AddCash(db, h, delta).investors) == Sum(db.investors) + delta
  {
    SumUpdate(db.investors, h, db.investors[h] + delta);
  }

  lemma ReplaySnoc(log: seq<Event>, e: Event)
    ensures Replay(log + [e]) == Apply(Replay(log), e) && Flow(log + [e]) == Flow(log) + FlowOf(e)
  {
    hide Redemptions, RedeemedTotal;
    LogSnoc(log, e, 0);
  }

  // ---- Deposits and placements ----

  lemma DepositReplays(db: Db, investor: nat, amount: int)
    requires LogIsTheBooks(db) && CashAddsUp(db)
    ensures LogIsTheBooks(AfterDeposit(db, investor, amount)) && CashAddsUp(AfterDeposit(db, investor, amount))
  {
    hide Sum, Replay, Flow, CashOf;
    if amount > 0 && investor < |db.investors| {
      ReplaySnoc(db.log, Deposited(investor, amount));
      MoveAgrees(Replay(db.log), db, investor, amount);
      AddCashSum(db, investor, amount);
    }
  }

  lemma PlaceReplays(db: Db, issue: nat, investor: nat, quantity: int, price: int)
    requires LogIsTheBooks(db) && CashAddsUp(db)
    ensures var db' := AfterPlace(db, issue, investor, quantity, price); LogIsTheBooks(db') && CashAddsUp(db')
  {
    hide Sum, Replay, Flow, CashOf, Credit, CashAgrees;
    if CanPlace(db, issue, investor, quantity, price) {
      var cost := price * quantity;
      ReplaySnoc(db.log, IssuePlaced(issue, investor, quantity, price, cost));
      MoveAgrees(Replay(db.log), db, investor, -cost);
      AddCashSum(db, investor, -cost);
      hide AddCash, CanPlace;
    }
  }

  // ---- Trades ----

  /** A settled trade moves cash between two accounts and creates none. */
  lemma TradeConservesCash(db: Db, trade: nat, accrued: Option<nat>)
    requires WellFormed(db)
    ensures Sum(AfterProcessTrade(db, trade, accrued).investors) == Sum(db.investors)
  {
    hide Sum, Credit, Debit, ValidIssue;
    if trade < |db.trades| && db.trades[trade].status.Submitted?
       && CanSettle(db, db.trades[trade], accrued) && db.trades[trade].quantity > 0 {
      var t := db.trades[trade];
      assert ValidTrade(db, t);
      var total := t.price * t.quantity + accrued.value * t.quantity;
      AddCashSum(db, t.buyer, -total);
      AddCashSum(AddCash(db, t.buyer, -total), t.seller, total);
    }
  }

  lemma SettleReplays(db: Db, trade: nat, accrued: nat)
    requires WellFormed(db) && LogIsTheBooks(db)
    requires trade < |db.trades| && CanSettle(db, db.trades[trade], Some(accrued)) && db.trades[trade].quantity > 0
    ensures LogIsTheBooks(AfterSettle(db, trade, accrued))
    ensures Flow(AfterSettle(db, trade, accrued).log) == Flow(db.log)
  {
    hide Replay, Flow, CashOf, Credit, Debit, CashAgrees, ValidIssue, PositionsInRange;
    var t := db.trades[trade];
    assert ValidTrade(db, t);
    var ac := accrued * t.quantity;
    var total := t.price * t.quantity + ac;
    ReplaySnoc(db.log, TradeSettled(trade, t.issue, t.seller, t.buyer, t.quantity, t.price, ac, total));
    MoveAgrees(Replay(db.log), db, t.buyer, -total);
    MoveAgrees(Move(Replay(db.log), t.buyer, -total), AddCash(db, t.buyer, -total), t.seller, total);
    hide AddCash, CanSettle, WellFormed;
  }

  lemma TradeReplays(db: Db, trade: nat, accrued: Option<nat>)
    requires WellFormed(db) && LogIsTheBooks(db) && CashAddsUp(db)
    ensures var db' := AfterProcessTrade(db, trade, accrued); LogIsTheBooks(db') && CashAddsUp(db')
  {
    hide WellFormed, Sum, Replay, Flow, CanSettle, AfterSettle;
    TradeConservesCash(db, trade, accrued);
    if trade < |db.trades| && db.trades[trade].status.Submitted? {
      if CanSettle(db, db.trades[trade], accrued) && db.trades[trade].quantity > 0 {
        SettleReplays(db, trade, Settling(db, db.trades[trade], accrued));
      } else {
        ReplaySnoc(db.log, TradeFailed(trade));
      }
    }
  }

  function Settling(db: Db, t: Trade, accrued: Option<nat>): (r: nat)
    requires CanSettle(db, t, accrued)
    ensures accrued == Some(r)
  {
    accrued.value
  }

  // ---- Coupons ----

  lemma PayHolderReplays(db: Db, issue: nat, coupon: nat, perUnit: int, h: nat)
    requires LogIsTheBooks(db) && CashAddsUp(db) && h < |db.investors|
    ensures var db' := PayHolder(db, issue, coupon, perUnit, h); LogIsTheBooks(db') && CashAddsUp(db')
  {
    hide Sum, Replay, Flow, CashOf, CashAgrees, QuantityOf;
    var q := QuantityOf(db.positions, Holding(h, issue));
    ReplaySnoc(db.log, CouponPaid(issue, coupon, h, q, perUnit * q));
    MoveAgrees(Replay(db.log), db, h, perUnit * q);
    AddCashSum(db, h, perUnit * q);
    hide AddCash;
  }

  lemma {:induction false} PayHoldersReplays(db: Db, issue: nat, coupon: nat, perUnit: int, order: seq<nat>)
    requires LogIsTheBooks(db) && CashAddsUp(db) && forall h: nat :: h in order ==> h < |db.investors|
    ensures var db' := PayHolders(db, issue, coupon, perUnit, order); LogIsTheBooks(db') && CashAddsUp(db')
  {
    hide LogIsTheBooks, CashAddsUp, PayHolder;
    if order != [] {
      var front, last := order[..|order| - 1], order[|order| - 1];
      assert forall h: nat :: h in front ==> h in order;
      assert last in order;
      PayHoldersReplays(db, issue, coupon, perUnit, front);
      PayHoldersFrame(db, issue, coupon, perUnit, front);
      PayHolderReplays(PayHolders(db, issue, coupon, perUnit, front), issue, coupon, perUnit, last);
    }
  }

  lemma PayCouponReplays(db: Db, issue: nat, asOf: Date, order: seq<nat>)
    requires WellFormed(db) && LogIsTheBooks(db) && CashAddsUp(db) && IsHolders(db.positions, issue, order)
    ensures var db' := AfterPayCoupon(db, issue, asOf, order); LogIsTheBooks(db') && CashAddsUp(db')
  {
    HoldersExist(db, issue, order);
    hide WellFormed, IsHolders, Sum, Replay, Flow, PerUnit, PayHolders, CashAgrees;
    if CouponIsDue(db, issue, asOf) {
      DueHasNext(db.schedules[issue], asOf);
      var i, coupon := db.issues[issue], NextDue(db.schedules[issue]);
      PayHoldersReplays(db, issue, coupon, PerUnit(i.nominal, i.rate, i.frequency), order);
      PayHoldersFrame(db, issue, coupon, PerUnit(i.nominal, i.rate, i.frequency), order);
    }
  }

  // ---- Redemption ----

  /** While holders are being redeemed the log already shows their positions gone. */
  lemma {:induction false} RedeemHoldersReplay(db: Db, issue: nat, nominal: int, order: seq<nat>)
    requires LogIsTheBooks(db) && CashAddsUp(db)
    requires forall i, j :: 0 <= i < j < |order| ==> order[i] != order[j]
    requires forall h: nat :: h in order ==> h < |db.investors|
    ensures var db' := RedeemHolders(db, issue, nominal, order);
            && CashAgrees(Replay(db'.log).cash, db'.investors)
            && Replay(db'.log).positions == WithoutAll(db.positions, issue, order)
            && Sum(db'.investors) == Flow(db'.log)
  {
    hide Sum, Replay, Flow, CashOf, CashAgrees;
    if order != [] {
      var front, last := order[..|order| - 1], order[|order| - 1];
      assert forall h: nat :: h in front ==> h in order;
      assert last in order && last !in front;
      RedeemHoldersReplay(db, issue, nominal, front);
      RedeemHoldersFrame(db, issue, nominal, front);
      var d := RedeemHolders(db, issue, nominal, front);
      var k := Holding(last, issue);
      var q := QuantityOf(db.positions, k);
      ReplaySnoc(d.log, HolderMatured(issue, last, q, nominal * q));
      MoveAgrees(Replay(d.log), d, last, nominal * q);
      AddCashSum(d, last, nominal * q);
      WithoutAllElsewhere(db.positions, issue, front, k);
      DebitTakesAll(db.positions, WithoutAll(db.positions, issue, front), k);
      hide AddCash, QuantityOf, Debit, Without;
    }
  }

  lemma DebitTakesAll(ps: map<Holding, Position>, qs: map<Holding, Position>, k: Holding)
    requires (k in qs <==> k in ps) && (k in ps ==> qs[k] == ps[k])
    ensures Debit(qs, k, QuantityOf(ps, k)) == Without(qs, k)
  {
  }

  lemma RedeemReplays(db: Db, issue: nat, asOf: Date, order: seq<nat>)
    requires WellFormed(db) && LogIsTheBooks(db) && CashAddsUp(db) && IsHolders(db.positions, issue, order)
    ensures var db' := AfterRedeem(db, issue, asOf, order); LogIsTheBooks(db') && CashAddsUp(db')
  {
    if IsMaturing(db, issue, asOf) {
      var nominal := db.issues[issue].nominal;
      var paid := RedeemHolders(db, issue, nominal, order);
      HoldersExist(db, issue, order);
      RedeemHoldersReplay(db, issue, nominal, order);
      RedeemHoldersFrame(db, issue, nominal, order);
      WithoutHoldersIsZeroOut(db.positions, issue, order);
      hide WellFormed, IsHolders, Sum, Replay, Flow, RedeemHolders, CashAgrees, WithoutAll, ZeroOut, QuantitySum;
      ReplaySnoc(paid.log, IssueMatured(issue, |order|, nominal * QuantitySum(db.positions, issue, order)));
    }
  }

  // ---- Whole steps ----

  lemma PaperworkReplays(db: Db, op: Op)
    requires LogIsTheBooks(db) && CashAddsUp(db)
    requires op.NewInvestor? || op.NewIssue? || op.UpdateStatus? || op.NewTrade?
    ensures LogIsTheBooks(Next(db, op)) && CashAddsUp(Next(db, op))
  {
    hide Sum, Replay, Flow, Schedule, ValidTerms;
    match op
    case NewInvestor => SumSnoc(db.investors, 0);
    case NewIssue(_, _, _, _, _, _) => ReplaySnoc(db.log, IssueCreated(|db.issues|));
    case UpdateStatus(issue, next) =>
      if issue < |db.issues| {
        ReplaySnoc(db.log, StatusChanged(issue, db.issues[issue].status, next));
      }
    case NewTrade(_, _, _, _, _) => ReplaySnoc(db.log, TradeSubmitted(|db.trades|));
    case _ =>
  }

  lemma NextReplays(db: Db, op: Op)
    requires WellFormed(db) && LogIsTheBooks(db) && CashAddsUp(db) && Sound(db, op)
    ensures LogIsTheBooks(Next(db, op)) && CashAddsUp(Next(db, op))
  {
    hide WellFormed, LogIsTheBooks, CashAddsUp, AfterPlace, AfterProcessTrade, AfterPayCoupon, AfterRedeem,
         AfterDeposit;
    match op
    case Deposit(investor, amount) => DepositReplays(db, investor, amount);
    case Place(issue, investor, quantity, price) => PlaceReplays(db, issue, investor, quantity, price);
    case ProcessTrade(trade, accrued) => TradeReplays(db, trade, accrued);
    case PayCoupon(issue, asOf, order) => PayCouponReplays(db, issue, asOf, order);
    case Redeem(issue, asOf, order) => RedeemReplays(db, issue, asOf, order);
    case _ => PaperworkReplays(db, op);
  }
}
