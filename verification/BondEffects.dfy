/** What each operation of the ledger does to every table, in terms of the rows themselves. */
module BondEffects {
  import opened Options
  import opened Arithmetic
  import opened Calendar
  import opened Bonds
  import opened BondHoldings
  import opened BondLedger

  // ---- Rounding ----

  /** The integer nearest to a / b, the larger one of two. */
  predicate Nearest(q: int, a: int, b: int) {
    -b < 2 * (q * b - a) <= b
  }

  lemma RoundDivNearest(a: int, b: int)
    requires b > 0
    ensures Nearest(RoundDiv(a, b), a, b)
  {
    var x, d := 2 * a + b, 2 * b;
    assert x == (x / d) * d + x % d;
  }

  /** A quotient rounded to t parts of a unit and then to whole units is off by little more than half a unit. */
  lemma RoundedTwice(a: int, b: int, t: int)
    requires b > 0 && t > 0
    ensures -(b * (t + 1)) <= 2 * (RoundDiv(RoundDiv(a, b), t) * (t * b) - a) <= b * (t + 1)
  {
    var inner := RoundDiv(a, b);
    var outer := RoundDiv(inner, t);
    RoundDivNearest(a, b);
    RoundDivNearest(inner, t);
    hide RoundDiv;
    var e := 2 * (outer * t - inner);
    MulAtLeast(e, -t, b);
    MulAtLeast(t, e, b);
    assert 2 * (outer * (t * b) - a) == e * b + 2 * (inner * b - a);
    assert b * (t + 1) == t * b + b;
  }

  /**
   * A coupon is a whole number of units of the sixth decimal place, and the nearest one, to within the last
   * place of the sixteen-digit quotient, to nominal times rate over frequency.
   */
  lemma CouponNearest(nominal: int, rate: int, frequency: nat)
    requires frequency in {1, 2, 4}
    ensures PerUnit(nominal, rate, frequency) % 100 == 0
    ensures
      2 * Abs(PerUnit(nominal, rate, frequency) * 100000000 * frequency - nominal * rate)
      <= 10000000001 * frequency
  {
    var u := RoundDiv(RoundDiv(nominal * rate, frequency), 10000000000);
    RoundedTwice(nominal * rate, frequency, 10000000000);
    hide RoundDiv;
    assert PerUnit(nominal, rate, frequency) == 100 * u;
    assert 100 * u * 100000000 * frequency == u * (10000000000 * frequency);
  }

  /** The price of a position is the nearest one, in the eighth place, to its cost over its quantity. */
  lemma AverageNearest(cost: int, quantity: int)
    requires quantity > 0
    ensures 200000000 * Abs(Average(cost, quantity) * quantity - cost) <= 100000001 * quantity
  {
    RoundedTwice(cost * 100000000, quantity, 100000000);
    hide RoundDiv;
    var avg := Average(cost, quantity);
    assert 2 * (avg * (100000000 * quantity) - cost * 100000000) == 200000000 * (avg * quantity - cost);
  }

  // ---- Positions ----

  /** A purchase adds to one position, at the average price of what is held afterwards; no other changes. */
  ghost predicate Bought(
      ps: map<Holding, Position>, ps': map<Holding, Position>, k: Holding, quantity: int, price: int)
  {
    && ps'.Keys == ps.Keys + {k}
    && (forall x :: x in ps && x != k ==> ps'[x] == ps[x])
    && ps'[k].quantity == QuantityOf(ps, k) + quantity
    && var before := if k in ps then ps[k].avgPrice * ps[k].quantity else 0;
       200000000 * Abs(ps'[k].avgPrice * ps'[k].quantity - (before + price * quantity)) <= 100000001 * ps'[k].quantity
  }

  lemma CreditBuys(ps: map<Holding, Position>, k: Holding, quantity: int, price: int)
    requires quantity > 0 && QuantityOf(ps, k) >= 0
    ensures Bought(ps, Credit(ps, k, quantity, price), k, quantity, price)
  {
    hide Average;
    if k in ps {
      AverageNearest(ps[k].avgPrice * ps[k].quantity + price * quantity, ps[k].quantity + quantity);
    }
  }

  // ---- Deposits, investors, issues ----

  lemma NewInvestorEffects(db: Db)
    ensures Next(db, NewInvestor) == db.(investors := db.investors + [0])
  {
  }

  /** A deposit of a positive amount raises one balance by exactly that amount; any other changes nothing. */
  lemma DepositEffects(db: Db, investor: nat, amount: int)
    ensures
      var db' := Next(db, Deposit(investor, amount));
      if amount > 0 && investor < |db.investors| then
        && db' == db.(investors := db'.investors, log := db.log + [Deposited(investor, amount)])
        && |db'.investors| == |db.investors|
        && db'.investors[investor] == db.investors[investor] + amount
        && forall h :: 0 <= h < |db.investors| && h != investor ==> db'.investors[h] == db.investors[h]
      else db' == db
  {
  }

  /** An issue with usable terms becomes a draft with a schedule of unpaid coupons of one amount. */
  lemma NewIssueEffects(
      db: Db, nominal: int, rate: int, frequency: nat, issued: Date, maturity: Date, total: int)
    ensures
      var db' := Next(db, NewIssue(nominal, rate, frequency, issued, maturity, total));
      if (frequency == 1 || frequency == 2 || frequency == 4) && nominal > 0 && rate >= 0 && total > 0
         && issued.Valid() && maturity.Valid() && issued.Before(maturity) then
        && db' == db.(issues := db'.issues, schedules := db'.schedules, log := db.log + [IssueCreated(|db.issues|)])
        && db'.issues == db.issues + [Issue(nominal, rate, frequency, issued, maturity, total, 0, Draft)]
        && |db'.schedules| == |db.schedules| + 1 && db'.schedules[..|db.schedules|] == db.schedules
        && var cs := db'.schedules[|db.schedules|];
           && |cs| == |CouponDates(issued, maturity, frequency)|
           && forall k :: 0 <= k < |cs| ==>
                cs[k] == Coupon(CouponDates(issued, maturity, frequency)[k], PerUnit(nominal, rate, frequency), false)
      else db' == db
  {
    hide CouponDates, PerUnit;
  }

  /** The status moves only along five edges, and then nothing else changes. */
  lemma StatusEffects(db: Db, issue: nat, next: IssueStatus)
    ensures
      var db' := Next(db, UpdateStatus(issue, next));
      if issue < |db.issues|
         && (db.issues[issue].status, next)
            in {(Draft, Placement), (Draft, Cancelled), (Placement, Active), (Placement, Cancelled),
                (Active, Matured)} then
        && db' == db.(issues := db'.issues,
                      log := db.log + [StatusChanged(issue, db.issues[issue].status, next)])
        && |db'.issues| == |db.issues|
        && db'.issues[issue] == db.issues[issue].(status := next)
        && forall i :: 0 <= i < |db.issues| && i != issue ==> db'.issues[i] == db.issues[i]
      else db' == db
  {
  }

  /** A placement sells quantity units at the price, or does nothing when any of its conditions fails. */
  lemma PlaceEffects(db: Db, issue: nat, investor: nat, quantity: int, price: int)
    requires WellFormed(db)
    ensures
      var db' := Next(db, Place(issue, investor, quantity, price));
      if quantity > 0 && price > 0 && issue < |db.issues| && db.issues[issue].status == Placement
         && investor < |db.investors| && db.investors[investor] >= quantity * price
         && db.issues[issue].placed + quantity <= db.issues[issue].total then
        && db' == db.(investors := db'.investors, issues := db'.issues, positions := db'.positions,
                      log := db.log + [IssuePlaced(issue, investor, quantity, price, quantity * price)])
        && |db'.investors| == |db.investors| && |db'.issues| == |db.issues|
        && db'.investors[investor] == db.investors[investor] - quantity * price
        && (forall h :: 0 <= h < |db.investors| && h != investor ==> db'.investors[h] == db.investors[h])
        && (forall i :: 0 <= i < |db.issues| && i != issue ==> db'.issues[i] == db.issues[i])
        && db'.issues[issue] == db.issues[issue].(
             placed := db.issues[issue].placed + quantity,
             status := if db.issues[issue].placed + quantity == db.issues[issue].total then Active else Placement)
        && Bought(db.positions, db'.positions, Holding(investor, issue), quantity, price)
      else db' == db
  {
    hide Credit, Bought, ValidIssue;
    if CanPlace(db, issue, investor, quantity, price) {
      CreditBuys(db.positions, Holding(investor, issue), quantity, price);
    }
  }

  // ---- Trades ----

  lemma NewTradeEffects(db: Db, issue: nat, seller: nat, buyer: nat, quantity: int, price: int)
    ensures
      var db' := Next(db, NewTrade(issue, seller, buyer, quantity, price));
      if seller != buyer && quantity > 0 && price > 0 && issue < |db.issues|
         && seller < |db.investors| && buyer < |db.investors| then
        db' == db.(
          trades := db.trades + [Trade(issue, seller, buyer, quantity, price, 0, quantity * price, Submitted)],
          log := db.log + [TradeSubmitted(|db.trades|)])
      else db' == db
  {
  }

  /** What a settled trade does, for the accrued interest of one unit. */
  ghost predicate TradeSettles(db: Db, db': Db, trade: nat, accrued: int) {
    && trade < |db.trades| == |db'.trades| && |db'.investors| == |db.investors|
    && var t := db.trades[trade];
       && t.seller < |db.investors| && t.buyer < |db.investors|
       && db' == db.(investors := db'.investors, positions := db'.positions, trades := db'.trades,
                     log := db.log + [TradeSettled(trade, t.issue, t.seller, t.buyer, t.quantity, t.price,
                                                   t.quantity * accrued, t.quantity * (t.price + accrued))])
       && db'.investors[t.buyer] == db.investors[t.buyer] - t.quantity * (t.price + accrued)
       && db'.investors[t.seller] == db.investors[t.seller] + t.quantity * (t.price + accrued)
       && (forall h :: 0 <= h < |db.investors| && h != t.buyer && h != t.seller ==> db'.investors[h] == db.investors[h])
       && db'.trades[trade] == t.(accrued := t.quantity * accrued, total := t.quantity * (t.price + accrued),
                                  status := Settled)
       && (forall i :: 0 <= i < |db.trades| && i != trade ==> db'.trades[i] == db.trades[i])
       && TradeMoves(db.positions, db'.positions, Holding(t.seller, t.issue), Holding(t.buyer, t.issue), t.quantity,
                     t.price)
  }

  /** Quantity leaves one position, at the price it has, and is bought into the other. */
  ghost predicate TradeMoves(
      ps: map<Holding, Position>, ps': map<Holding, Position>, from: Holding, to: Holding, quantity: int, price: int)
  {
    && from in ps && from in ps'
    && ps'[from] == ps[from].(quantity := ps[from].quantity - quantity)
    && Bought(ps[from := ps'[from]], ps', to, quantity, price)
  }

  /**
   * A submitted trade settles exactly when its issue is active, the seller holds the quantity, the interest
   * could be computed and the buyer can pay price and interest; otherwise it fails and moves nothing.
   */
  lemma TradeEffects(db: Db, trade: nat, accrued: Option<nat>)
    requires WellFormed(db) && trade < |db.trades| && db.trades[trade].status == Submitted
    ensures
      var t, db' := db.trades[trade], Next(db, ProcessTrade(trade, accrued));
      if t.issue < |db.issues| && db.issues[t.issue].status == Active
         && QuantityOf(db.positions, Holding(t.seller, t.issue)) >= t.quantity
         && accrued.Some? && db.investors[t.buyer] >= t.quantity * (t.price + accrued.value) then
        TradeSettles(db, db', trade, accrued.value)
      else
        db' == db.(trades := db.trades[trade := t.(status := Failed)], log := db.log + [TradeFailed(trade)])
  {
    var t := db.trades[trade];
    assert ValidTrade(db, t);
    if CanSettle(db, t, accrued) {
      SettleEffects(db, trade, accrued.value);
    }
  }

  lemma SettleEffects(db: Db, trade: nat, accrued: nat)
    requires WellFormed(db) && trade < |db.trades| && CanSettle(db, db.trades[trade], Some(accrued))
    ensures TradeSettles(db, AfterSettle(db, trade, accrued), trade, accrued)
  {
    hide Credit, ValidIssue, Bought;
    var t := db.trades[trade];
    assert ValidTrade(db, t);
    var from, to := Holding(t.seller, t.issue), Holding(t.buyer, t.issue);
    var sold := Debit(db.positions, from, t.quantity);
    assert t.price * t.quantity + accrued * t.quantity == t.quantity * (t.price + accrued);
    CreditBuys(sold, to, t.quantity, t.price);
    CreditKeeps(sold, to, t.quantity, t.price, from);
    assert db.positions[from := sold[from]] == sold;
  }

  lemma CreditKeeps(ps: map<Holding, Position>, k: Holding, quantity: int, price: int, other: Holding)
    requires quantity > 0 && other in ps && other != k
    ensures other in Credit(ps, k, quantity, price) && Credit(ps, k, quantity, price)[other] == ps[other]
  {
    hide Average;
  }

  /** A trade that is not submitted is left alone. */
  lemma DecidedTradeEffects(db: Db, trade: nat, accrued: Option<nat>)
    requires trade >= |db.trades| || db.trades[trade].status != Submitted
    ensures Next(db, ProcessTrade(trade, accrued)) == db
  {
  }

  // ---- Coupons and redemption, holder by holder ----

  ghost predicate Distinct(order: seq<nat>) {
    forall i, j :: 0 <= i < j < |order| ==> order[i] != order[j]
  }

  /** Everybody gets so much for each unit held of the issue, and nobody anything else. */
  ghost predicate PaidEach(db: Db, db': Db, issue: nat, unit: int) {
    && |db'.investors| == |db.investors|
    && forall h: nat :: h < |db.investors| ==>
         db'.investors[h] == db.investors[h] + unit * QuantityOf(db.positions, Holding(h, issue))
  }

  lemma PayHolderOnce(db: Db, issue: nat, coupon: nat, unit: int, x: nat, h: nat)
    requires x < |db.investors| && h < |db.investors| && unit >= 0
    requires QuantityOf(db.positions, Holding(x, issue)) >= 0
    ensures
      var db' := PayHolder(db, issue, coupon, unit, x);
      && |db'.investors| == |db.investors| && db'.positions == db.positions
      && db'.investors[h]
         == db.investors[h] + (if h == x then unit * QuantityOf(db.positions, Holding(x, issue)) else 0)
  {
    MulAtLeast(QuantityOf(db.positions, Holding(x, issue)), 0, unit);
  }

  lemma {:induction false} PayHoldersEach(db: Db, issue: nat, coupon: nat, unit: int, order: seq<nat>, h: nat)
    requires Distinct(order) && h < |db.investors| && unit >= 0
    requires forall x :: x in order ==> x < |db.investors| && QuantityOf(db.positions, Holding(x, issue)) >= 0
    ensures
      var db' := PayHolders(db, issue, coupon, unit, order);
      && |db'.investors| == |db.investors| && db'.positions == db.positions
      && db'.investors[h]
         == db.investors[h] + (if h in order then unit * QuantityOf(db.positions, Holding(h, issue)) else 0)
  {
    if order != [] {
      var k := |order| - 1;
      var front, x := order[..k], order[k];
      assert forall y :: y in front ==> y in order;
      PayHoldersEach(db, issue, coupon, unit, front, h);
      assert h in order <==> h in front || h == x;
      assert x in order;
      hide PayHolder;
      PayHolderOnce(PayHolders(db, issue, coupon, unit, front), issue, coupon, unit, x, h);
    }
  }

  lemma {:induction false} RedeemHoldersEach(db: Db, issue: nat, nominal: int, order: seq<nat>, h: nat)
    requires Distinct(order) && h < |db.investors|
    ensures
      var db' := RedeemHolders(db, issue, nominal, order);
      && |db'.investors| == |db.investors| && db'.positions == db.positions
      && db'.investors[h]
         == db.investors[h] + (if h in order then nominal * QuantityOf(db.positions, Holding(h, issue)) else 0)
  {
    if order != [] {
      var k := |order| - 1;
      RedeemHoldersEach(db, issue, nominal, order[..k], h);
      assert h in order <==> h in order[..k] || h == order[k];
    }
  }

  /** What a coupon run writes down: one payment and one event for every holder who is paid anything. */
  ghost predicate PaymentsWritten(db: Db, db': Db, issue: nat, coupon: nat, unit: int) {
    && db.payments <= db'.payments && db.log <= db'.log
    && |db'.log| - |db.log| == |db'.payments| - |db.payments|
    && forall i :: |db.payments| <= i < |db'.payments| ==>
         var p := db'.payments[i];
         var quantity := QuantityOf(db.positions, Holding(p.investor, issue));
         && p.issue == issue && p.coupon == coupon && p.amount == unit * quantity > 0
         && db'.log[|db.log| + (i - |db.payments|)] == CouponPaid(issue, coupon, p.investor, quantity, p.amount)
  }

  lemma {:induction false} PayHoldersWrite(db: Db, issue: nat, coupon: nat, unit: int, order: seq<nat>)
    ensures PaymentsWritten(db, PayHolders(db, issue, coupon, unit, order), issue, coupon, unit)
    ensures PayHolders(db, issue, coupon, unit, order).positions == db.positions
  {
    if order != [] {
      PayHoldersWrite(db, issue, coupon, unit, order[..|order| - 1]);
    }
  }

  /** What a redemption writes down: one event for every holder, in their order. */
  lemma {:induction false} RedeemHoldersWrite(db: Db, issue: nat, nominal: int, order: seq<nat>)
    ensures
      var db' := RedeemHolders(db, issue, nominal, order);
      && db'.positions == db.positions && |db'.log| == |db.log| + |order| && db.log <= db'.log
      && forall k :: 0 <= k < |order| ==>
           var quantity := QuantityOf(db.positions, Holding(order[k], issue));
           db'.log[|db.log| + k] == HolderMatured(issue, order[k], quantity, nominal * quantity)
  {
    if order != [] {
      RedeemHoldersWrite(db, issue, nominal, order[..|order| - 1]);
    }
  }

  /** Who is not among the holders holds nothing. */
  lemma NotHolding(db: Db, issue: nat, order: seq<nat>, h: nat)
    requires WellFormed(db) && IsHolders(db.positions, issue, order) && h !in order
    ensures QuantityOf(db.positions, Holding(h, issue)) == 0
  {
    hide ValidIssue;
  }

  /**
   * Paying a due coupon pays every holder the coupon for each unit, marks the earliest unpaid coupon and
   * leaves every other coupon, issue, position and trade alone.
   */
  lemma CouponEffects(db: Db, issue: nat, asOf: Date, order: seq<nat>)
    requires WellFormed(db) && IsHolders(db.positions, issue, order)
    ensures
      var db' := Next(db, PayCoupon(issue, asOf, order));
      if issue < |db.issues| && db.issues[issue].status == Active
         && exists k :: 0 <= k < |db.schedules[issue]| && !db.schedules[issue][k].paid
                        && !asOf.Before(db.schedules[issue][k].date) then
        && db' == db.(investors := db'.investors, schedules := db'.schedules, payments := db'.payments, log := db'.log)
        && var i := db.issues[issue];
           var unit := PerUnit(i.nominal, i.rate, i.frequency);
           && PaidEach(db, db', issue, unit)
           && exists c :: EarliestMarked(db.schedules, db'.schedules, issue, c)
                          && PaymentsWritten(db, db', issue, c, unit)
      else db' == db
  {
    hide PerUnit;
    if CouponIsDue(db, issue, asOf) {
      DuePays(db, issue, asOf, order);
    } else if issue < |db.issues| {
      assert ValidIssue(db.issues[issue]);
    }
  }

  /** Coupon c was the unpaid one with the earliest date and is paid now; no other coupon changed. */
  ghost predicate EarliestMarked(before: seq<seq<Coupon>>, after: seq<seq<Coupon>>, issue: nat, c: nat) {
    && |after| == |before| && issue < |before| && c < |before[issue]| == |after[issue]|
    && !before[issue][c].paid && after[issue][c] == before[issue][c].(paid := true)
    && (forall k :: 0 <= k < |before[issue]| && !before[issue][k].paid ==>
          !before[issue][k].date.Before(before[issue][c].date))
    && (forall k :: 0 <= k < |before[issue]| && k != c ==> after[issue][k] == before[issue][k])
    && (forall j :: 0 <= j < |before| && j != issue ==> after[j] == before[j])
  }

  lemma {:induction false} NextDueIsEarliest(cs: seq<Coupon>)
    ensures NextDue(cs) == -1 ==> forall k :: 0 <= k < |cs| ==> cs[k].paid
    ensures NextDue(cs) >= 0 ==> forall k :: 0 <= k < |cs| && !cs[k].paid ==> !cs[k].date.Before(cs[NextDue(cs)].date)
  {
    if cs != [] {
      NextDueIsEarliest(cs[..|cs| - 1]);
    }
  }

  lemma DuePays(db: Db, issue: nat, asOf: Date, order: seq<nat>)
    requires WellFormed(db) && IsHolders(db.positions, issue, order) && CouponIsDue(db, issue, asOf)
    ensures
      var db', i := Next(db, PayCoupon(issue, asOf, order)), db.issues[issue];
      && db' == db.(investors := db'.investors, schedules := db'.schedules, payments := db'.payments, log := db'.log)
      && PaidEach(db, db', issue, PerUnit(i.nominal, i.rate, i.frequency))
      && exists c :: EarliestMarked(db.schedules, db'.schedules, issue, c)
                     && PaymentsWritten(db, db', issue, c, PerUnit(i.nominal, i.rate, i.frequency))
  {
    var i := db.issues[issue];
    var unit := PerUnit(i.nominal, i.rate, i.frequency);
    PerUnitNonNegative(i);
    hide PerUnit, ValidIssue;
    DueHasNext(db.schedules[issue], asOf);
    var c := NextDue(db.schedules[issue]);
    NextDueIsEarliest(db.schedules[issue]);
    hide NextDue, AnyDue;
    var paid, db' := PayHolders(db, issue, c, unit, order), Next(db, PayCoupon(issue, asOf, order));
    PayHoldersFrame(db, issue, c, unit, order);
    assert db' == MarkPaid(paid, issue, c);
    forall h: nat | h < |db.investors|
      ensures |paid.investors| == |db.investors|
      ensures paid.investors[h] == db.investors[h] + unit * QuantityOf(db.positions, Holding(h, issue))
    {
      HoldersExist(db, issue, order);
      PayHoldersEach(db, issue, c, unit, order, h);
      if h !in order {
        NotHolding(db, issue, order, h);
      }
    }
    SameInvestors(db, issue, c, unit, order);
    PayHoldersWrite(db, issue, c, unit, order);
    hide PaymentsWritten;
    assert PaymentsWritten(db, db', issue, c, unit) by { SameWriting(db, paid, db', issue, c, unit); }
    assert EarliestMarked(db.schedules, db'.schedules, issue, c);
  }

  lemma SameWriting(db: Db, a: Db, b: Db, issue: nat, coupon: nat, unit: int)
    requires PaymentsWritten(db, a, issue, coupon, unit) && a.payments == b.payments && a.log == b.log
    ensures PaymentsWritten(db, b, issue, coupon, unit)
  {
  }

  lemma {:induction false} SameInvestors(db: Db, issue: nat, coupon: nat, unit: int, order: seq<nat>)
    ensures |PayHolders(db, issue, coupon, unit, order).investors| == |db.investors|
    ensures |RedeemHolders(db, issue, unit, order).investors| == |db.investors|
  {
    if order != [] {
      SameInvestors(db, issue, coupon, unit, order[..|order| - 1]);
    }
  }

  /**
   * Redeeming an active issue at or after its maturity pays every holder the nominal for each unit, leaves
   * nobody a unit of it and marks it matured; other issues and their positions stay.
   */
  lemma RedeemEffects(db: Db, issue: nat, asOf: Date, order: seq<nat>)
    requires WellFormed(db) && IsHolders(db.positions, issue, order)
    ensures
      var db' := Next(db, Redeem(issue, asOf, order));
      if issue < |db.issues| && db.issues[issue].status == Active && !asOf.Before(db.issues[issue].maturity) then
        && db' == db.(investors := db'.investors, issues := db'.issues, positions := db'.positions, log := db'.log)
        && PaidEach(db, db', issue, db.issues[issue].nominal)
        && db'.positions.Keys == db.positions.Keys
        && (forall k :: k in db.positions ==>
              db'.positions[k] == if k.issue == issue then db.positions[k].(quantity := 0) else db.positions[k])
        && |db'.issues| == |db.issues| && db'.issues[issue] == db.issues[issue].(status := Matured)
        && (forall i :: 0 <= i < |db.issues| && i != issue ==> db'.issues[i] == db.issues[i])
      else db' == db
  {
    hide ValidIssue;
    if IsMaturing(db, issue, asOf) {
      var nominal := db.issues[issue].nominal;
      RedeemHoldersFrame(db, issue, nominal, order);
      var paid := RedeemHolders(db, issue, nominal, order);
      SameInvestors(db, issue, 0, nominal, order);
      forall h: nat | h < |db.investors|
        ensures |paid.investors| == |db.investors|
        ensures paid.investors[h] == db.investors[h] + nominal * QuantityOf(db.positions, Holding(h, issue))
      {
        RedeemHoldersEach(db, issue, nominal, order, h);
        if h !in order {
          NotHolding(db, issue, order, h);
        }
      }
    }
  }

  /** It writes one event for every holder and one for the issue, with what was held and paid in all. */
  lemma RedeemWrites(db: Db, issue: nat, asOf: Date, order: seq<nat>)
    requires WellFormed(db) && IsHolders(db.positions, issue, order) && IsMaturing(db, issue, asOf)
    ensures
      var db', nominal := Next(db, Redeem(issue, asOf, order)), db.issues[issue].nominal;
      && db.log <= db'.log && |db'.log| == |db.log| + |order| + 1
      && (forall k :: 0 <= k < |order| ==>
            var quantity := QuantityOf(db.positions, Holding(order[k], issue));
            db'.log[|db.log| + k] == HolderMatured(issue, order[k], quantity, nominal * quantity))
      && db'.log[|db.log| + |order|]
         == IssueMatured(issue, |order|, nominal * HeldBy(db.positions, issue, |db.investors|))
  {
    RedeemHoldersWrite(db, issue, db.issues[issue].nominal, order);
    HoldersHoldAll(db.positions, issue, order, |db.investors|);
    hide ValidIssue, IsHolders, RedeemHolders, ZeroOut, QuantitySum, HeldBy;
  }
}
