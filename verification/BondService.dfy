/** The services over the tables, statement by statement; each call is one operation of the ledger. */
module BondService {
  import opened Options
  import opened Arithmetic
  import opened Calendar
  import opened Bonds
  import opened BondHoldings
  import opened BondLedger
  import opened BondEffects

  /** Several operations one after the other. */
  function RunOps(db: Db, ops: seq<Op>): Db {
    if ops == [] then db else Next(RunOps(db, ops[..|ops| - 1]), ops[|ops| - 1])
  }

  ghost predicate AllSound(db: Db, ops: seq<Op>) {
    ops == [] || (AllSound(db, ops[..|ops| - 1]) && Sound(RunOps(db, ops[..|ops| - 1]), ops[|ops| - 1]))
  }

  lemma RunOpsSnoc(db: Db, ops: seq<Op>, op: Op)
    requires AllSound(db, ops) && Sound(RunOps(db, ops), op)
    ensures RunOps(db, ops + [op]) == Next(RunOps(db, ops), op) && AllSound(db, ops + [op])
  {
    assert (ops + [op])[..|ops|] == ops;
  }

  class Ledger {
    var investors: seq<int>
    var issues: seq<Issue>
    var positions: map<Holding, Position>
    var trades: seq<Trade>
    var schedules: seq<seq<Coupon>>
    var payments: seq<Payment>
    var log: seq<Event>

    function Tables(): Db
      reads this
    {
      Db(investors, issues, positions, trades, schedules, payments, log)
    }

    constructor ()
      ensures Tables() == EMPTY
    {
      investors, issues, positions, trades, schedules, payments, log := [], [], map[], [], [], [], [];
    }

    // ---- Repositories ----

    method UpdateBalance(investor: nat, delta: int) returns (found: bool)
      modifies this`investors
      ensures found == (investor < |old(investors)|)
      ensures Tables() == AddCash(old(Tables()), investor, delta)
    {
      found := investor < |investors|;
      if found {
        investors := investors[investor := investors[investor] + delta];
      }
    }

    /** Averages the price into what is held already, or opens the position. */
    method Buy(k: Holding, quantity: int, price: int)
      requires quantity > 0 && (k in positions ==> positions[k].quantity >= 0)
      modifies this`positions
      ensures positions == Credit(old(positions), k, quantity, price)
    {
      var held := if k in positions then positions[k] else Position(0, 0);
      var newQuantity := held.quantity + quantity;
      var previousCost := held.avgPrice * held.quantity;
      var average := Average(previousCost + price * quantity, newQuantity);
      if k !in positions {
        FirstPurchase(positions, k, quantity, price);
        AverageExact(price, quantity);
        assert previousCost == 0;
      }
      positions := positions[k := Position(newQuantity, average)];
    }

    method Transfer(seller: nat, buyer: nat, issue: nat, quantity: int, price: int) returns (ok: bool)
      requires quantity > 0 && forall k :: k in positions ==> positions[k].quantity >= 0
      modifies this`positions
      ensures ok == (QuantityOf(old(positions), Holding(seller, issue)) >= quantity)
      ensures positions == if ok then Credit(Debit(old(positions), Holding(seller, issue), quantity),
                                             Holding(buyer, issue), quantity, price) else old(positions)
    {
      var from := Holding(seller, issue);
      if from !in positions {
        return false;
      }
      if positions[from].quantity < quantity {
        return false;
      }
      positions := positions[from := positions[from].(quantity := positions[from].quantity - quantity)];
      Buy(Holding(buyer, issue), quantity, price);
      ok := true;
    }

    /** Who holds the issue. */
    method GetByIssue(issue: nat) returns (holders: seq<nat>)
      requires PositionsInRange(positions, |investors|, |issues|)
      ensures IsHolders(positions, issue, holders)
    {
      holders := [];
      for h := 0 to |investors|
        invariant forall i, j :: 0 <= i < j < |holders| ==> holders[i] != holders[j]
        invariant forall x: nat :: x in holders <==> x < h && QuantityOf(positions, Holding(x, issue)) > 0
      {
        if Holding(h, issue) in positions && positions[Holding(h, issue)].quantity > 0 {
          holders := holders + [h];
        }
      }
      assert forall x: nat :: QuantityOf(positions, Holding(x, issue)) > 0 ==> Holding(x, issue) in positions;
    }

    method IncrementPlaced(issue: nat, delta: int) returns (placed: Option<int>)
      modifies this`issues
      ensures placed.Some? <==>
                issue < |old(issues)| && old(issues)[issue].placed + delta <= old(issues)[issue].total
      ensures placed.Some? ==>
                && placed.value == old(issues)[issue].placed + delta
                && issues == old(issues)[issue := old(issues)[issue].(placed := placed.value)]
      ensures placed.None? ==> issues == old(issues)
    {
      if issue >= |issues| || issues[issue].placed + delta > issues[issue].total {
        return None;
      }
      issues := issues[issue := issues[issue].(placed := issues[issue].placed + delta)];
      return Some(issues[issue].placed);
    }

    // ---- Handlers ----

    method CreateIssue(nominal: int, rate: int, frequency: nat, issued: Date, maturity: Date, total: int)
      modifies this
      ensures Tables() == Next(old(Tables()), NewIssue(nominal, rate, frequency, issued, maturity, total))
    {
      if frequency !in {1, 2, 4} || nominal <= 0 || rate < 0 || total <= 0
         || !issued.Valid() || !maturity.Valid() || !issued.Before(maturity) {
        return;
      }
      var issue := Issue(nominal, rate, frequency, issued, maturity, total, 0, Draft);
      var dates := BuildDates(issued, maturity, frequency);
      var perPeriod := PerUnit(nominal, rate, frequency);
      issues := issues + [issue];
      schedules := schedules + [seq(|dates|, k requires 0 <= k < |dates| => Coupon(dates[k], perPeriod, false))];
      log := log + [IssueCreated(|issues| - 1)];
      assert schedules == old(schedules) + [Schedule(issue)];
    }

    method UpdateIssueStatus(issue: nat, next: IssueStatus) returns (ok: bool)
      modifies this
      ensures ok <==> issue < |old(issues)| && next in AllowedTransitions(old(issues)[issue].status)
      ensures Tables() == Next(old(Tables()), UpdateStatus(issue, next))
    {
      if issue >= |issues| || next !in AllowedTransitions(issues[issue].status) {
        return false;
      }
      var from := issues[issue].status;
      issues := issues[issue := issues[issue].(status := next)];
      log := log + [StatusChanged(issue, from, next)];
      ok := true;
    }

    method Deposit(investor: nat, amount: int) returns (ok: bool)
      modifies this
      ensures ok <==> amount > 0 && investor < |old(investors)|
      ensures Tables() == Next(old(Tables()), Op.Deposit(investor, amount))
      ensures ok ==> investors == old(investors)[investor := old(investors)[investor] + amount]
    {
      if amount <= 0 {
        return false;
      }
      ok := UpdateBalance(investor, amount);
      if ok {
        log := log + [Deposited(investor, amount)];
      }
    }

    method PlaceIssue(issue: nat, investor: nat, quantity: int, price: int) returns (ok: bool)
      requires forall k :: k in positions ==> positions[k].quantity >= 0
      modifies this
      ensures ok <==> CanPlace(old(Tables()), issue, investor, quantity, price)
      ensures Tables() == Next(old(Tables()), Place(issue, investor, quantity, price))
    {
      hide Credit;
      if quantity <= 0 || price <= 0 || issue >= |issues| || !issues[issue].status.Placement? {
        return false;
      }
      var cost := price * quantity;
      if investor >= |investors| || investors[investor] < cost {
        return false;
      }
      var placed := IncrementPlaced(issue, quantity);
      if placed.None? {
        return false;
      }
      var _ := UpdateBalance(investor, -cost);
      Buy(Holding(investor, issue), quantity, price);
      log := log + [IssuePlaced(issue, investor, quantity, price, cost)];
      if placed.value >= issues[issue].total && issues[issue].status.Placement? {
        issues := issues[issue := issues[issue].(status := Active)];
      }
      ok := true;
    }

    // ---- Settlement ----

    method ProcessTrade(trade: nat, accrued: Option<nat>)
      requires WellFormed(Tables())
      modifies this
      ensures Tables() == Next(old(Tables()), Op.ProcessTrade(trade, accrued))
    {
      hide Average, Credit, Debit, ValidIssue;
      if trade >= |trades| || !trades[trade].status.Submitted? {
        return;
      }
      assert ValidTrade(Tables(), trades[trade]);
      var settled := Settle(trade, accrued);
      if !settled {
        trades := trades[trade := trades[trade].(status := Failed)];
        log := log + [TradeFailed(trade)];
      }
    }

    method Settle(trade: nat, accrued: Option<nat>) returns (ok: bool)
      requires WellFormed(Tables()) && trade < |trades|
      modifies this
      ensures ok <==> CanSettle(old(Tables()), old(trades)[trade], accrued)
      ensures Tables() == if ok then AfterSettle(old(Tables()), trade, accrued.value) else old(Tables())
      ensures ok ==> TradeSettles(old(Tables()), Tables(), trade, accrued.value)
    {
      hide Average, Credit, Debit, ValidIssue, TradeSettles;
      ghost var before := Tables();
      var t := trades[trade];
      assert ValidTrade(Tables(), t);
      if t.issue >= |issues| || !issues[t.issue].status.Active? {
        return false;
      }
      var from := Holding(t.seller, t.issue);
      if from !in positions || positions[from].quantity < t.quantity || accrued.None? {
        return false;
      }
      var interest := accrued.value * t.quantity;
      var total := t.price * t.quantity + interest;
      if t.buyer >= |investors| || investors[t.buyer] < total {
        return false;
      }
      ok := Transfer(t.seller, t.buyer, t.issue, t.quantity, t.price);
      var _ := UpdateBalance(t.buyer, -total);
      var _ := UpdateBalance(t.seller, total);
      trades := trades[trade := t.(accrued := interest, total := total, status := Settled)];
      log := log + [TradeSettled(trade, t.issue, t.seller, t.buyer, t.quantity, t.price, interest, total)];
      SettleEffects(before, trade, accrued.value);
    }

    // ---- Coupons ----

    /** Pays the next coupon of an issue that has one due. */
    method ProcessIssue(issue: nat, asOf: Date) returns (holders: seq<nat>)
      requires WellFormed(Tables()) && CouponIsDue(Tables(), issue, asOf)
      modifies this
      ensures IsHolders(old(positions), issue, holders)
      ensures Tables() == Next(old(Tables()), PayCoupon(issue, asOf, holders))
      ensures WellFormed(Tables())
    {
      hide WellFormed, IsHolders;
      ghost var before := Tables();
      DueHasNext(schedules[issue], asOf);
      var coupon := NextDue(schedules[issue]);
      holders := Holders(issue);
      PayCouponWellFormed(Tables(), issue, asOf, holders);
      var i := issues[issue];
      var perUnit := PerUnit(i.nominal, i.rate, i.frequency);
      PayHoldersFrame(before, issue, coupon, perUnit, holders);
      PayOut(issue, coupon, perUnit, holders);
      schedules := schedules[issue := schedules[issue][coupon := schedules[issue][coupon].(paid := true)]];
    }

    method Holders(issue: nat) returns (holders: seq<nat>)
      requires WellFormed(Tables())
      ensures IsHolders(positions, issue, holders)
      ensures forall h: nat :: h in holders ==> h < |investors|
    {
      holders := GetByIssue(issue);
      HoldersExist(Tables(), issue, holders);
    }

    method PayOut(issue: nat, coupon: nat, perUnit: int, holders: seq<nat>)
      requires forall h: nat :: h in holders ==> h < |investors|
      modifies this
      ensures Tables() == PayHolders(old(Tables()), issue, coupon, perUnit, holders)
    {
      for k := 0 to |holders|
        invariant Tables() == PayHolders(old(Tables()), issue, coupon, perUnit, holders[..k])
      {
        assert holders[..k + 1][..k] == holders[..k];
        var h := holders[k];
        var quantity := QuantityOf(positions, Holding(h, issue));
        var amount := perUnit * quantity;
        if amount > 0 {
          var _ := UpdateBalance(h, amount);
          payments := payments + [Payment(issue, coupon, h, amount)];
          log := log + [CouponPaid(issue, coupon, h, quantity, amount)];
        }
      }
      assert holders[..|holders|] == holders;
    }

    /** Every issue with a due coupon gets exactly one of them paid, the earliest maturity first. */
    method ProcessDueCoupons(asOf: Date) returns (due: seq<nat>, ghost ops: seq<Op>)
      requires WellFormed(Tables())
      modifies this
      ensures forall i: nat :: i in due <==> CouponIsDue(old(Tables()), i, asOf)
      ensures Agenda(old(issues), due)
      ensures PaysFor(ops, due, asOf)
      ensures AllSound(old(Tables()), ops) && Tables() == RunOps(old(Tables()), ops)
      ensures WellFormed(Tables())
    {
      due := DueIssues(asOf);
      ops := [];
      assert PaysFor(ops, due[..0], asOf) && AllDue(Tables(), due[0..], asOf);
      hide WellFormed, Next, AllSound, RunOps, CouponIsDue, IsHolders, PaysFor, AllDue;
      assert AllSound(Tables(), ops) && RunOps(Tables(), ops) == Tables() by { NothingRun(Tables()); }
      for k := 0 to |due|
        invariant WellFormed(Tables())
        invariant AllDue(Tables(), due[k..], asOf)
        invariant PaysFor(ops, due[..k], asOf)
        invariant AllSound(old(Tables()), ops) && Tables() == RunOps(old(Tables()), ops)
      {
        ghost var before := Tables();
        FirstIsDue(before, due, k, asOf);
        var holders := ProcessIssue(due[k], asOf);
        ghost var op := PayCoupon(due[k], asOf, holders);
        RunOpsSnoc(old(Tables()), ops, op);
        RestStaysDue(before, due, k, asOf, holders);
        PaysOneMore(ops, due, k, asOf, op);
        ops := ops + [op];
      }
      assert due[..|due|] == due;
    }

    method DueIssues(asOf: Date) returns (due: seq<nat>)
      requires WellFormed(Tables())
      ensures forall i: nat :: i in due <==> CouponIsDue(Tables(), i, asOf)
      ensures Agenda(issues, due)
    {
      due := [];
      for i := 0 to |issues|
        invariant forall j: nat :: j in due <==> j < i && CouponIsDue(Tables(), j, asOf)
        invariant Agenda(issues, due)
      {
        if CouponIsDue(Tables(), i, asOf) {
          hide WellFormed, CouponIsDue;
          due := InsertByMaturity(due, i);
        }
      }
    }

    method InsertByMaturity(ids: seq<nat>, i: nat) returns (r: seq<nat>)
      requires Agenda(issues, ids) && i < |issues| && i !in ids
      ensures Agenda(issues, r)
      ensures forall j :: j in r <==> j in ids || j == i
    {
      var p := |ids|;
      while p > 0 && issues[i].maturity.Before(issues[ids[p - 1]].maturity)
        invariant 0 <= p <= |ids|
        invariant forall k :: p <= k < |ids| ==> issues[i].maturity.Before(issues[ids[k]].maturity)
      {
        p := p - 1;
      }
      r := ids[..p] + [i] + ids[p..];
      InsertedInOrder(issues, ids, i, p);
    }

    // ---- Redemption ----

    method RedeemIssue(issue: nat, asOf: Date) returns (holders: seq<nat>)
      requires WellFormed(Tables()) && IsMaturing(Tables(), issue, asOf)
      modifies this
      ensures IsHolders(old(positions), issue, holders)
      ensures Tables() == Next(old(Tables()), Redeem(issue, asOf, holders))
      ensures WellFormed(Tables())
    {
      hide WellFormed, IsHolders, ZeroOut;
      ghost var before := Tables();
      holders := Holders(issue);
      RedeemWellFormed(Tables(), issue, asOf, holders);
      var nominal := issues[issue].nominal;
      RedeemHoldersFrame(before, issue, nominal, holders);
      var redeemed := CreditNominal(issue, nominal, holders);
      positions := ZeroOut(positions, issue);
      if issues[issue].status.Active? {
        issues := issues[issue := issues[issue].(status := Matured)];
      }
      log := log + [IssueMatured(issue, |holders|, redeemed)];
    }

    method CreditNominal(issue: nat, nominal: int, holders: seq<nat>) returns (redeemed: int)
      requires forall h: nat :: h in holders ==> h < |investors|
      modifies this
      ensures Tables() == RedeemHolders(old(Tables()), issue, nominal, holders)
      ensures redeemed == nominal * QuantitySum(old(positions), issue, holders)
    {
      redeemed := 0;
      for k := 0 to |holders|
        invariant positions == old(positions)
        invariant Tables() == RedeemHolders(old(Tables()), issue, nominal, holders[..k])
        invariant redeemed == nominal * QuantitySum(old(positions), issue, holders[..k])
      {
        assert holders[..k + 1][..k] == holders[..k];
        var h := holders[k];
        var quantity := QuantityOf(positions, Holding(h, issue));
        var amount := nominal * quantity;
        MulDistributeLeft(nominal, QuantitySum(positions, issue, holders[..k]), quantity);
        var _ := UpdateBalance(h, amount);
        log := log + [HolderMatured(issue, h, quantity, amount)];
        redeemed := redeemed + amount;
      }
      assert holders[..|holders|] == holders;
    }

    /** Redeems the active issues past their maturity, the earliest first; afterwards there are none. */
    method ProcessMaturities(asOf: Date) returns (maturing: seq<nat>, ghost ops: seq<Op>)
      requires WellFormed(Tables())
      modifies this
      ensures forall i: nat :: i in maturing <==> IsMaturing(old(Tables()), i, asOf)
      ensures Agenda(old(issues), maturing)
      ensures RedeemsFor(ops, maturing, asOf)
      ensures forall i: nat :: !IsMaturing(Tables(), i, asOf)
      ensures AllSound(old(Tables()), ops) && Tables() == RunOps(old(Tables()), ops)
      ensures WellFormed(Tables())
    {
      maturing := MaturingIssues(asOf);
      ops := [];
      assert RedeemsFor(ops, maturing[..0], asOf);
      hide WellFormed, Next, AllSound, RunOps, IsMaturing, IsHolders, RedeemsFor;
      assert AllSound(Tables(), ops) && RunOps(Tables(), ops) == Tables() by { NothingRun(Tables()); }
      for k := 0 to |maturing|
        invariant WellFormed(Tables())
        invariant forall i: nat :: i in maturing[k..] <==> IsMaturing(Tables(), i, asOf)
        invariant RedeemsFor(ops, maturing[..k], asOf)
        invariant AllSound(old(Tables()), ops) && Tables() == RunOps(old(Tables()), ops)
      {
        ghost var before := Tables();
        assert maturing[k..] == [maturing[k]] + maturing[k + 1..];
        var holders := RedeemIssue(maturing[k], asOf);
        ghost var op := Redeem(maturing[k], asOf, holders);
        RunOpsSnoc(old(Tables()), ops, op);
        forall i: nat
          ensures IsMaturing(Tables(), i, asOf) <==> IsMaturing(before, i, asOf) && i != maturing[k]
        {
          OthersStayMaturing(before, maturing[k], asOf, holders, i);
        }
        RedeemsOneMore(ops, maturing, k, asOf, op);
        ops := ops + [op];
      }
      assert maturing[..|maturing|] == maturing;
    }

    method MaturingIssues(asOf: Date) returns (maturing: seq<nat>)
      ensures forall i: nat :: i in maturing <==> IsMaturing(Tables(), i, asOf)
      ensures Agenda(issues, maturing)
    {
      maturing := [];
      for i := 0 to |issues|
        invariant forall j: nat :: j in maturing <==> j < i && IsMaturing(Tables(), j, asOf)
        invariant Agenda(issues, maturing)
      {
        if issues[i].status.Active? && !asOf.Before(issues[i].maturity) {
          maturing := InsertByMaturity(maturing, i);
        }
      }
    }
  }

  /** Each of these issues once, in the order of their maturity. */
  ghost predicate Agenda(issues: seq<Issue>, ids: seq<nat>) {
    && (forall k :: 0 <= k < |ids| ==> ids[k] < |issues|)
    && (forall j, k :: 0 <= j < k < |ids| ==>
          ids[j] != ids[k] && !issues[ids[k]].maturity.Before(issues[ids[j]].maturity))
  }

  lemma InsertedAt(ids: seq<nat>, i: nat, p: nat, k: nat)
    requires p <= |ids| && k <= |ids|
    ensures (ids[..p] + [i] + ids[p..])[k] == if k < p then ids[k] else if k == p then i else ids[k - 1]
  {
  }

  lemma InsertedIn(ids: seq<nat>, i: nat, p: nat, j: nat)
    requires p <= |ids|
    ensures j in ids[..p] + [i] + ids[p..] <==> j in ids || j == i
  {
    assert ids == ids[..p] + ids[p..];
  }

  lemma InsertedInOrder(issues: seq<Issue>, ids: seq<nat>, i: nat, p: nat)
    requires Agenda(issues, ids) && i < |issues| && i !in ids && p <= |ids|
    requires p > 0 ==> !issues[i].maturity.Before(issues[ids[p - 1]].maturity)
    requires forall k :: p <= k < |ids| ==> issues[i].maturity.Before(issues[ids[k]].maturity)
    ensures
      var r := ids[..p] + [i] + ids[p..];
      Agenda(issues, r) && forall j :: j in r <==> j in ids || j == i
  {
    var r := ids[..p] + [i] + ids[p..];
    forall j: nat
      ensures j in r <==> j in ids || j == i
    {
      InsertedIn(ids, i, p, j);
    }
    forall k: nat | k <= |ids|
      ensures r[k] < |issues|
    {
      InsertedAt(ids, i, p, k);
    }
    forall j: nat, k: nat | j < k <= |ids|
      ensures r[j] != r[k] && !issues[r[k]].maturity.Before(issues[r[j]].maturity)
    {
      InsertedAt(ids, i, p, j);
      InsertedAt(ids, i, p, k);
      if k == p && j < p - 1 {
        assert !issues[ids[p - 1]].maturity.Before(issues[ids[j]].maturity);
      }
    }
  }

  lemma NothingRun(db: Db)
    ensures AllSound(db, []) && RunOps(db, []) == db
  {
  }

  /** One payment for each of the issues, in their order. */
  ghost predicate PaysFor(ops: seq<Op>, due: seq<nat>, asOf: Date) {
    && |ops| == |due|
    && forall j :: 0 <= j < |ops| ==> ops[j].PayCoupon? && ops[j].issue == due[j] && ops[j].asOf == asOf
  }

  ghost predicate RedeemsFor(ops: seq<Op>, maturing: seq<nat>, asOf: Date) {
    && |ops| == |maturing|
    && forall j :: 0 <= j < |ops| ==> ops[j].Redeem? && ops[j].issue == maturing[j] && ops[j].asOf == asOf
  }

  lemma RedeemsOneMore(ops: seq<Op>, maturing: seq<nat>, k: nat, asOf: Date, op: Op)
    requires k < |maturing| && RedeemsFor(ops, maturing[..k], asOf)
    requires op.Redeem? && op.issue == maturing[k] && op.asOf == asOf
    ensures RedeemsFor(ops + [op], maturing[..k + 1], asOf)
  {
  }

  ghost predicate AllDue(db: Db, due: seq<nat>, asOf: Date) {
    forall j :: 0 <= j < |due| ==> CouponIsDue(db, due[j], asOf)
  }

  lemma PaysOneMore(ops: seq<Op>, due: seq<nat>, k: nat, asOf: Date, op: Op)
    requires k < |due| && PaysFor(ops, due[..k], asOf)
    requires op.PayCoupon? && op.issue == due[k] && op.asOf == asOf
    ensures PaysFor(ops + [op], due[..k + 1], asOf)
  {
  }

  lemma FirstIsDue(db: Db, due: seq<nat>, k: nat, asOf: Date)
    requires k < |due| && AllDue(db, due[k..], asOf)
    ensures CouponIsDue(db, due[k], asOf)
  {
    assert due[k..][0] == due[k];
  }

  lemma RestStaysDue(db: Db, due: seq<nat>, k: nat, asOf: Date, order: seq<nat>)
    requires k < |due| && AllDue(db, due[k..], asOf)
    requires forall i, j :: 0 <= i < j < |due| ==> due[i] != due[j]
    ensures AllDue(Next(db, PayCoupon(due[k], asOf, order)), due[k + 1..], asOf)
  {
    hide CouponIsDue, Next;
    FirstIsDue(db, due, k, asOf);
    var rest := due[k + 1..];
    forall j | 0 <= j < |rest|
      ensures CouponIsDue(Next(db, PayCoupon(due[k], asOf, order)), rest[j], asOf)
    {
      assert rest[j] == due[k..][j + 1];
      OthersStayDue(db, due[k], asOf, order, due[k + 1 + j]);
    }
  }

  lemma OthersStayDue(db: Db, issue: nat, asOf: Date, order: seq<nat>, other: nat)
    requires CouponIsDue(db, issue, asOf) && CouponIsDue(db, other, asOf) && other != issue
    ensures CouponIsDue(Next(db, PayCoupon(issue, asOf, order)), other, asOf)
  {
    hide PerUnit, PayHolders;
    DueHasNext(db.schedules[issue], asOf);
    var i := db.issues[issue];
    PayHoldersFrame(db, issue, NextDue(db.schedules[issue]), PerUnit(i.nominal, i.rate, i.frequency), order);
  }

  lemma OthersStayMaturing(db: Db, issue: nat, asOf: Date, order: seq<nat>, other: nat)
    requires IsMaturing(db, issue, asOf)
    ensures IsMaturing(Next(db, Redeem(issue, asOf, order)), other, asOf) <==>
            IsMaturing(db, other, asOf) && other != issue
  {
    hide RedeemHolders, ZeroOut, QuantitySum;
    RedeemHoldersFrame(db, issue, db.issues[issue].nominal, order);
  }
}
