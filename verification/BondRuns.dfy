/** The main results about serial runs of the bond ledger. */
module BondRuns {
  import opened Arithmetic
  import opened Bonds
  import opened BondHoldings
  import opened BondLedger
  import opened BondConservation
  import opened BondReplay
  import opened BondCoupons

  /** After every serial run, replaying the log from empty tables gives every balance and every position. */
  lemma {:induction false} EveryRunIsItsLog(ops: seq<Op>, states: seq<Db>, n: nat)
    requires IsRun(ops, states) && n < |states|
    ensures forall h: nat :: h < |states[n].investors| ==>
              CashOf(Replay(states[n].log).cash, h) == states[n].investors[h]
    ensures Replay(states[n].log).positions == states[n].positions
    ensures Sum(states[n].investors) == Flow(states[n].log)
  {
    RunReplays(ops, states, n);
    hide IsRun, Replay, Flow, Sum, CashOf;
  }

  lemma {:induction false} RunReplays(ops: seq<Op>, states: seq<Db>, n: nat)
    requires IsRun(ops, states) && n < |states|
    ensures LogIsTheBooks(states[n]) && CashAddsUp(states[n])
  {
    hide WellFormed, QuantityInv, CouponInv, LogIsTheBooks, CashAddsUp, Next, Sound;
    if n == 0 {
      EmptyReplays();
    } else {
      RunReplays(ops, states, n - 1);
      RunCoupons(ops, states, n - 1);
      NextReplays(states[n - 1], ops[n - 1]);
    }
  }

  lemma EmptyReplays()
    ensures LogIsTheBooks(EMPTY) && CashAddsUp(EMPTY)
  {
  }

  /**
   * After every serial run: balances and quantities are not negative, no more is placed than there is,
   * an issue's positions add up to what was placed until it is redeemed and to nothing afterwards, and
   * it is redeemed at most once, for exactly its nominal times the quantity placed.
   */
  lemma EveryRunConservesQuantities(ops: seq<Op>, states: seq<Db>, n: nat, i: nat)
    requires IsRun(ops, states) && n < |states| && i < |states[n].issues|
    ensures forall h :: 0 <= h < |states[n].investors| ==> states[n].investors[h] >= 0
    ensures forall k :: k in states[n].positions ==> states[n].positions[k].quantity >= 0
    ensures 0 <= states[n].issues[i].placed <= states[n].issues[i].total
    ensures Redemptions(states[n].log, i) <= 1
    ensures Redemptions(states[n].log, i) == 1 ==> states[n].issues[i].status.Matured?
    ensures HeldBy(states[n].positions, i, |states[n].investors|)
         == if Redemptions(states[n].log, i) == 0 then states[n].issues[i].placed else 0
    ensures RedeemedTotal(states[n].log, i)
         == if Redemptions(states[n].log, i) == 0 then 0 else states[n].issues[i].nominal * states[n].issues[i].placed
  {
    RunCoupons(ops, states, n);
    hide IsRun, CouponInv, Redemptions, RedeemedTotal, HeldBy;
    assert QuantitiesAddUp(states[n], i);
    assert ValidIssue(states[n].issues[i]);
  }

  /** A trade is processed at most once: only a submitted one changes anything, and it stays decided. */
  lemma TradesAreDecidedOnce(db: Db, op: Op, t: nat)
    requires t < |db.trades| && !db.trades[t].status.Submitted?
    ensures t < |Next(db, op).trades| && Next(db, op).trades[t] == db.trades[t]
    ensures op.ProcessTrade? && op.trade == t ==> Next(db, op) == db
  {
    match op
    case PayCoupon(issue, asOf, order) =>
      if CouponIsDue(db, issue, asOf) {
        DueHasNext(db.schedules[issue], asOf);
        var i := db.issues[issue];
        PayHoldersFrame(db, issue, NextDue(db.schedules[issue]), PerUnit(i.nominal, i.rate, i.frequency), order);
      }
    case Redeem(issue, asOf, order) =>
      if IsMaturing(db, issue, asOf) {
        RedeemHoldersFrame(db, issue, db.issues[issue].nominal, order);
      }
    case _ => hide Credit, Debit, Schedule, ValidTerms;
  }

  // ---- Statuses ----

  /** How far an issue has come; the two ends of its life are ends. */
  function Rank(s: IssueStatus): nat {
    match s
    case Draft => 0
    case Placement => 1
    case Active => 2
    case Matured => 3
    case Cancelled => 3
  }

  /** Whatever is done to it, an issue's status only ever moves along the transition table. */
  lemma StatusFollowsTable(db: Db, op: Op, i: nat)
    requires i < |db.issues|
    ensures i < |Next(db, op).issues|
    ensures var from, next := db.issues[i].status, Next(db, op).issues[i].status;
            from == next || next in AllowedTransitions(from)
  {
    match op
    case PayCoupon(issue, asOf, order) =>
      if CouponIsDue(db, issue, asOf) {
        DueHasNext(db.schedules[issue], asOf);
        var c := db.issues[issue];
        PayHoldersFrame(db, issue, NextDue(db.schedules[issue]), PerUnit(c.nominal, c.rate, c.frequency), order);
      }
    case Redeem(issue, asOf, order) =>
      if IsMaturing(db, issue, asOf) {
        RedeemHoldersFrame(db, issue, db.issues[issue].nominal, order);
      }
    case _ => hide Credit, Debit, Schedule, ValidTerms;
  }

  /** So it never goes back: in a run, statuses rank higher and higher, and an ended issue stays as it is. */
  lemma {:induction false} StatusNeverGoesBack(ops: seq<Op>, states: seq<Db>, m: nat, n: nat, i: nat)
    requires IsRun(ops, states) && m <= n < |states| && i < |states[m].issues|
    ensures i < |states[n].issues|
    ensures Rank(states[m].issues[i].status) <= Rank(states[n].issues[i].status)
    ensures Rank(states[m].issues[i].status) == Rank(states[n].issues[i].status) ==>
              states[n].issues[i].status == states[m].issues[i].status
  {
    hide Next, Sound;
    if m < n {
      StatusNeverGoesBack(ops, states, m, n - 1, i);
      StatusFollowsTable(states[n - 1], ops[n - 1], i);
    }
  }
}
