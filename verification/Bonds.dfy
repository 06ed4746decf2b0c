/**
 * The bond ledger: deposits, placements, trades, coupons and redemption over the tables, each as one
 * atomic operation. Amounts and rates are in units of the eighth decimal place, the last one the columns keep,
 * so they are integers; rows are numbered in creation order.
 */
module Bonds {
  import opened Options
  import opened Calendar

  // ---- Rows ----

  datatype IssueStatus = Draft | Placement | Active | Matured | Cancelled

  function AllowedTransitions(from: IssueStatus): set<IssueStatus> {
    match from
    case Draft => {Placement, Cancelled}
    case Placement => {Active, Cancelled}
    case Active => {Matured}
    case Matured => {}
    case Cancelled => {}
  }

  datatype Issue = Issue(
    nominal: int, rate: int, frequency: nat, issued: Date, maturity: Date, total: int, placed: int, status: IssueStatus)

  datatype Position = Position(quantity: int, avgPrice: int)

  datatype Holding = Holding(investor: nat, issue: nat)

  datatype TradeStatus = Submitted | Settled | Failed

  datatype Trade = Trade(
    issue: nat, seller: nat, buyer: nat, quantity: int, price: int, accrued: int, total: int, status: TradeStatus)

  datatype Coupon = Coupon(date: Date, amount: int, paid: bool)

  datatype Payment = Payment(issue: nat, coupon: nat, investor: nat, amount: int)

  datatype Event =
    | IssueCreated(issue: nat)
    | StatusChanged(issue: nat, from: IssueStatus, next: IssueStatus)
    | Deposited(investor: nat, amount: int)
    | IssuePlaced(issue: nat, investor: nat, quantity: int, price: int, cost: int)
    | TradeSubmitted(trade: nat)
    | TradeSettled(trade: nat, issue: nat, seller: nat, buyer: nat, quantity: int, price: int, accrued: int, total: int)
    | TradeFailed(trade: nat)
    | CouponPaid(issue: nat, coupon: nat, investor: nat, quantity: int, amount: int)
    | HolderMatured(issue: nat, investor: nat, quantity: int, redeemed: int)
    | IssueMatured(issue: nat, holders: nat, total: int)

  datatype Db = Db(
    investors: seq<int>, issues: seq<Issue>, positions: map<Holding, Position>, trades: seq<Trade>,
    schedules: seq<seq<Coupon>>, payments: seq<Payment>, log: seq<Event>)

  // ---- Positions ----

  /** Division rounded to the nearest integer, halves up, of a non-negative number. */
  function RoundDiv(a: int, b: int): int
    requires b > 0
  {
    (2 * a + b) / (2 * b)
  }

  const TEN_8 := 100000000
  const TEN_10 := 10000000000

  /** Cost over quantity: the quotient is taken to sixteen places and then rounded to eight. */
  function Average(cost: int, quantity: int): int
    requires quantity > 0
  {
    RoundDiv(RoundDiv(cost * TEN_8, quantity), TEN_8)
  }

  function QuantityOf(ps: map<Holding, Position>, k: Holding): int {
    if k in ps then ps[k].quantity else 0
  }

  /** Buying into a position averages the price over what is held afterwards. */
  function Credit(ps: map<Holding, Position>, k: Holding, quantity: int, price: int): map<Holding, Position>
    requires quantity > 0
  {
    if k in ps && ps[k].quantity >= 0 then
      var held := ps[k];
      ps[k := Position(held.quantity + quantity,
                       Average(held.avgPrice * held.quantity + price * quantity, held.quantity + quantity))]
    else ps[k := Position(quantity, price)]
  }

  function Debit(ps: map<Holding, Position>, k: Holding, quantity: int): map<Holding, Position> {
    if k in ps then ps[k := ps[k].(quantity := ps[k].quantity - quantity)] else ps
  }

  function ZeroOut(ps: map<Holding, Position>, issue: nat): map<Holding, Position> {
    map k | k in ps :: if k.issue == issue then ps[k].(quantity := 0) else ps[k]
  }

  /** An enumeration of an issue's holders: everybody with a positive quantity, once, in any order. */
  ghost predicate IsHolders(ps: map<Holding, Position>, issue: nat, order: seq<nat>) {
    && (forall i, j :: 0 <= i < j < |order| ==> order[i] != order[j])
    && (forall h: nat :: h in order <==> QuantityOf(ps, Holding(h, issue)) > 0)
  }

  // ---- Operations as functions of the tables ----

  datatype Op =
    | NewInvestor
    | NewIssue(nominal: int, rate: int, frequency: nat, issued: Date, maturity: Date, total: int)
    | UpdateStatus(issue: nat, next: IssueStatus)
    | Deposit(investor: nat, amount: int)
    | Place(issue: nat, investor: nat, quantity: int, price: int)
    | NewTrade(issue: nat, seller: nat, buyer: nat, quantity: int, price: int)
    | ProcessTrade(trade: nat, accrued: Option<nat>)
    | PayCoupon(issue: nat, asOf: Date, order: seq<nat>)
    | Redeem(issue: nat, asOf: Date, order: seq<nat>)

  function AddCash(db: Db, investor: nat, delta: int): (r: Db)
    ensures r == db.(investors := r.investors) && |r.investors| == |db.investors|
    ensures forall h: nat :: h < |db.investors| && h != investor ==> r.investors[h] == db.investors[h]
  {
    if investor < |db.investors| then
      db.(investors := db.investors[investor := db.investors[investor] + delta])
    else db
  }

  function Logged(db: Db, e: Event): Db {
    db.(log := db.log + [e])
  }

  predicate ValidTerms(op: Op)
    requires op.NewIssue?
  {
    && op.frequency in {1, 2, 4} && op.nominal > 0 && op.rate >= 0 && op.total > 0
    && op.issued.Valid() && op.maturity.Valid() && op.issued.Before(op.maturity)
  }

  /** Nominal times yearly rate over the number of coupons a year, to sixteen places and then to six. */
  function PerUnit(nominal: int, rate: int, frequency: nat): int
    requires frequency in {1, 2, 4}
  {
    100 * RoundDiv(RoundDiv(nominal * rate, frequency), TEN_10)
  }

  function Schedule(issue: Issue): seq<Coupon>
    requires issue.frequency in {1, 2, 4} && issue.issued.Valid()
  {
    var dates := CouponDates(issue.issued, issue.maturity, issue.frequency);
    seq(|dates|, i requires 0 <= i < |dates| =>
      Coupon(dates[i], PerUnit(issue.nominal, issue.rate, issue.frequency), false))
  }

  function AfterNewIssue(db: Db, op: Op): Db
    requires op.NewIssue?
  {
    if !ValidTerms(op) then db
    else
      var issue := Issue(op.nominal, op.rate, op.frequency, op.issued, op.maturity, op.total, 0, Draft);
      Logged(db.(issues := db.issues + [issue], schedules := db.schedules + [Schedule(issue)]),
             IssueCreated(|db.issues|))
  }

  function WithStatus(db: Db, issue: nat, status: IssueStatus): Db
    requires issue < |db.issues|
  {
    db.(issues := db.issues[issue := db.issues[issue].(status := status)])
  }

  function AfterUpdateStatus(db: Db, issue: nat, next: IssueStatus): Db {
    if issue >= |db.issues| || next !in AllowedTransitions(db.issues[issue].status) then db
    else Logged(WithStatus(db, issue, next), StatusChanged(issue, db.issues[issue].status, next))
  }

  function AfterDeposit(db: Db, investor: nat, amount: int): Db {
    if amount <= 0 || investor >= |db.investors| then db
    else Logged(AddCash(db, investor, amount), Deposited(investor, amount))
  }

  predicate CanPlace(db: Db, issue: nat, investor: nat, quantity: int, price: int) {
    && quantity > 0 && price > 0
    && issue < |db.issues| && db.issues[issue].status.Placement?
    && investor < |db.investors| && db.investors[investor] >= price * quantity
    && db.issues[issue].placed + quantity <= db.issues[issue].total
  }

  function AfterPlace(db: Db, issue: nat, investor: nat, quantity: int, price: int): Db {
    if !CanPlace(db, issue, investor, quantity, price) then db
    else
      var placed := db.issues[issue].placed + quantity;
      var status := if placed >= db.issues[issue].total then Active else Placement;
      Logged(
        AddCash(db, investor, -(price * quantity)).(
          issues := db.issues[issue := db.issues[issue].(placed := placed, status := status)],
          positions := Credit(db.positions, Holding(investor, issue), quantity, price)),
        IssuePlaced(issue, investor, quantity, price, price * quantity))
  }

  function AfterNewTrade(db: Db, issue: nat, seller: nat, buyer: nat, quantity: int, price: int): Db {
    if seller == buyer || quantity <= 0 || price <= 0 || issue >= |db.issues|
       || seller >= |db.investors| || buyer >= |db.investors| then db
    else
      Logged(db.(trades := db.trades + [Trade(issue, seller, buyer, quantity, price, 0, price * quantity, Submitted)]),
             TradeSubmitted(|db.trades|))
  }

  /** Everything settle checks before it opens its transaction. */
  predicate CanSettle(db: Db, t: Trade, accrued: Option<nat>) {
    && t.issue < |db.issues| && db.issues[t.issue].status.Active?
    && Holding(t.seller, t.issue) in db.positions
    && db.positions[Holding(t.seller, t.issue)].quantity >= t.quantity
    && accrued.Some?
    && t.buyer < |db.investors|
    && db.investors[t.buyer] >= t.price * t.quantity + accrued.value * t.quantity
  }

  function AfterSettle(db: Db, trade: nat, accruedPerUnit: nat): Db
    requires trade < |db.trades| && db.trades[trade].quantity > 0
  {
    var t := db.trades[trade];
    var accrued := accruedPerUnit * t.quantity;
    var total := t.price * t.quantity + accrued;
    var sold := Debit(db.positions, Holding(t.seller, t.issue), t.quantity);
    Logged(
      AddCash(AddCash(db, t.buyer, -total), t.seller, total).(
        positions := Credit(sold, Holding(t.buyer, t.issue), t.quantity, t.price),
        trades := db.trades[trade := t.(accrued := accrued, total := total, status := Settled)]),
      TradeSettled(trade, t.issue, t.seller, t.buyer, t.quantity, t.price, accrued, total))
  }

  function AfterFail(db: Db, trade: nat): Db
    requires trade < |db.trades|
  {
    Logged(db.(trades := db.trades[trade := db.trades[trade].(status := Failed)]), TradeFailed(trade))
  }

  function AfterProcessTrade(db: Db, trade: nat, accrued: Option<nat>): Db {
    if trade >= |db.trades| || !db.trades[trade].status.Submitted? then db
    else if CanSettle(db, db.trades[trade], accrued) && db.trades[trade].quantity > 0 then
      AfterSettle(db, trade, accrued.value)
    else AfterFail(db, trade)
  }

  // ---- Coupons ----

  /** The unpaid coupon with the earliest date, or -1. */
  function NextDue(cs: seq<Coupon>): (r: int)
    ensures -1 <= r < |cs|
    ensures r >= 0 ==> !cs[r].paid
  {
    if cs == [] then -1
    else
      var k := |cs| - 1;
      var r := NextDue(cs[..k]);
      if cs[k].paid then r else if r == -1 || cs[k].date.Before(cs[r].date) then k else r
  }

  predicate AnyDue(cs: seq<Coupon>, asOf: Date) {
    exists k :: 0 <= k < |cs| && !cs[k].paid && !asOf.Before(cs[k].date)
  }

  predicate CouponIsDue(db: Db, issue: nat, asOf: Date) {
    && issue < |db.issues| && issue < |db.schedules|
    && db.issues[issue].status.Active? && AnyDue(db.schedules[issue], asOf)
    && db.issues[issue].frequency in {1, 2, 4}
  }

  function PayHolder(db: Db, issue: nat, coupon: nat, perUnit: int, h: nat): Db {
    var quantity := QuantityOf(db.positions, Holding(h, issue));
    var amount := perUnit * quantity;
    if amount <= 0 then db
    else
      Logged(AddCash(db, h, amount).(payments := db.payments + [Payment(issue, coupon, h, amount)]),
             CouponPaid(issue, coupon, h, quantity, amount))
  }

  function PayHolders(db: Db, issue: nat, coupon: nat, perUnit: int, order: seq<nat>): Db {
    if order == [] then db
    else
      var k := |order| - 1;
      PayHolder(PayHolders(db, issue, coupon, perUnit, order[..k]), issue, coupon, perUnit, order[k])
  }

  function MarkPaid(db: Db, issue: nat, coupon: nat): Db
    requires issue < |db.schedules| && coupon < |db.schedules[issue]|
  {
    db.(schedules := db.schedules[issue := db.schedules[issue][coupon := db.schedules[issue][coupon].(paid := true)]])
  }

  lemma DueHasNext(cs: seq<Coupon>, asOf: Date)
    requires AnyDue(cs, asOf)
    ensures NextDue(cs) >= 0 && !asOf.Before(cs[NextDue(cs)].date)
    ensures forall k :: 0 <= k < |cs| && !cs[k].paid ==> !cs[k].date.Before(cs[NextDue(cs)].date)
  {
    NextIsEarliest(cs);
  }

  lemma {:induction false} NextIsEarliest(cs: seq<Coupon>)
    ensures NextDue(cs) == -1 ==> forall k :: 0 <= k < |cs| ==> cs[k].paid
    ensures NextDue(cs) >= 0 ==> forall k :: 0 <= k < |cs| && !cs[k].paid ==> !cs[k].date.Before(cs[NextDue(cs)].date)
  {
    if cs != [] {
      NextIsEarliest(cs[..|cs| - 1]);
    }
  }

  lemma {:induction false} PayHoldersFrame(db: Db, issue: nat, coupon: nat, perUnit: int, order: seq<nat>)
    ensures var db' := PayHolders(db, issue, coupon, perUnit, order);
            && db'.positions == db.positions && db'.issues == db.issues && db'.trades == db.trades
            && db'.schedules == db.schedules && |db'.investors| == |db.investors|
  {
    if order != [] {
      PayHoldersFrame(db, issue, coupon, perUnit, order[..|order| - 1]);
    }
  }

  function AfterPayCoupon(db: Db, issue: nat, asOf: Date, order: seq<nat>): Db {
    if !CouponIsDue(db, issue, asOf) then db
    else
      DueHasNext(db.schedules[issue], asOf);
      var i := db.issues[issue];
      var coupon := NextDue(db.schedules[issue]);
      PayHoldersFrame(db, issue, coupon, PerUnit(i.nominal, i.rate, i.frequency), order);
      MarkPaid(PayHolders(db, issue, coupon, PerUnit(i.nominal, i.rate, i.frequency), order), issue, coupon)
  }

  // ---- Redemption ----

  predicate IsMaturing(db: Db, issue: nat, asOf: Date) {
    issue < |db.issues| && db.issues[issue].status.Active? && !asOf.Before(db.issues[issue].maturity)
  }

  function RedeemHolder(db: Db, issue: nat, nominal: int, h: nat): Db {
    var quantity := QuantityOf(db.positions, Holding(h, issue));
    Logged(AddCash(db, h, nominal * quantity), HolderMatured(issue, h, quantity, nominal * quantity))
  }

  function RedeemHolders(db: Db, issue: nat, nominal: int, order: seq<nat>): Db {
    if order == [] then db
    else
      var k := |order| - 1;
      RedeemHolder(RedeemHolders(db, issue, nominal, order[..k]), issue, nominal, order[k])
  }

  function QuantitySum(ps: map<Holding, Position>, issue: nat, order: seq<nat>): int {
    if order == [] then 0
    else QuantitySum(ps, issue, order[..|order| - 1]) + QuantityOf(ps, Holding(order[|order| - 1], issue))
  }

  function AfterRedeem(db: Db, issue: nat, asOf: Date, order: seq<nat>): Db {
    if !IsMaturing(db, issue, asOf) then db
    else
      var nominal := db.issues[issue].nominal;
      var paid := RedeemHolders(db, issue, nominal, order);
      Logged(
        paid.(positions := ZeroOut(db.positions, issue),
              issues := db.issues[issue := db.issues[issue].(status := Matured)]),
        IssueMatured(issue, |order|, nominal * QuantitySum(db.positions, issue, order)))
  }

  lemma {:induction false} RedeemHoldersFrame(db: Db, issue: nat, nominal: int, order: seq<nat>)
    ensures var db' := RedeemHolders(db, issue, nominal, order);
            && db'.positions == db.positions && db'.issues == db.issues && db'.trades == db.trades
            && db'.schedules == db.schedules && db'.payments == db.payments && |db'.investors| == |db.investors|
  {
    if order != [] {
      RedeemHoldersFrame(db, issue, nominal, order[..|order| - 1]);
    }
  }

  // ---- One operation ----

  /** The holders a step goes through are the ones the table has. */
  ghost predicate Sound(db: Db, op: Op) {
    && (op.PayCoupon? ==> IsHolders(db.positions, op.issue, op.order))
    && (op.Redeem? ==> IsHolders(db.positions, op.issue, op.order))
  }

  function Next(db: Db, op: Op): Db {
    match op
    case NewInvestor => db.(investors := db.investors + [0])
    case NewIssue(_, _, _, _, _, _) => AfterNewIssue(db, op)
    case UpdateStatus(issue, next) => AfterUpdateStatus(db, issue, next)
    case Deposit(investor, amount) => AfterDeposit(db, investor, amount)
    case Place(issue, investor, quantity, price) => AfterPlace(db, issue, investor, quantity, price)
    case NewTrade(issue, seller, buyer, quantity, price) => AfterNewTrade(db, issue, seller, buyer, quantity, price)
    case ProcessTrade(trade, accrued) => AfterProcessTrade(db, trade, accrued)
    case PayCoupon(issue, asOf, order) => AfterPayCoupon(db, issue, asOf, order)
    case Redeem(issue, asOf, order) => AfterRedeem(db, issue, asOf, order)
  }

  const EMPTY := Db([], [], map[], [], [], [], [])

  /** A serial run of operations, refused ones included. */
  ghost predicate IsRun(ops: seq<Op>, states: seq<Db>) {
    && |states| == |ops| + 1
    && states[0] == EMPTY
    && forall k :: 0 <= k < |ops| ==> Sound(states[k], ops[k]) && states[k + 1] == Next(states[k], ops[k])
  }
}
