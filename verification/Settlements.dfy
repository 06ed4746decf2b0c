/**
 * Netting between the bank and its partners: CreateSettlement, ConfirmSettlement and Reconcile
 * running statement by statement under read-committed isolation with row locks.
 */
module Settlements {

  datatype Debtor = Bank | Partner

  datatype Status = Created | Confirmed | Settled

  datatype Settlement = Settlement(purchase: nat, partner: nat, debtor: Debtor, amount: int, status: Status) {
    predicate Open() {
      !status.Settled?
    }

    /** What the settlement adds to the partner's net balance. */
    function Signed(): int {
      if debtor.Bank? then amount else -amount
    }
  }

  datatype Balance = Balance(bankOwes: int, partnerOwes: int) {
    function Net(): int {
      bankOwes - partnerOwes
    }

    function Plus(debtor: Debtor, amount: int): Balance {
      if debtor.Bank? then Balance(bankOwes + amount, partnerOwes) else Balance(bankOwes, partnerOwes + amount)
    }
  }

  datatype Reconciliation = Reconciliation(partner: nat, amount: int)

  /** The committed tables. */
  datatype Db = Db(settlements: seq<Settlement>, balances: map<nat, Balance>, recs: seq<Reconciliation>) {
    function BalanceOf(p: nat): Balance {
      if p in balances then balances[p] else Balance(0, 0)
    }
  }

  /** A transaction by the last statement it completed, with the writes only it can see. */
  datatype Tx =
    | CreateBegun(row: Settlement)
    | CreateInserted(row: Settlement)
    | CreateUpserted(row: Settlement, balance: Balance)
    | ReconcileBegun(partner: nat)
    | ReconcileLocked(partner: nat, net: int)
    | ReconcileMarked(partner: nat, net: int, marked: set<nat>)
    | ReconcileReset(partner: nat, net: int, marked: set<nat>)
    | ReconcileRecorded(partner: nat, net: int, marked: set<nat>)
  {
    /** The balance row this transaction keeps locked until it ends. */
    predicate LocksBalance(p: nat) {
      match this
      case CreateUpserted(row, _) => row.partner == p
      case ReconcileLocked(partner, _) => partner == p
      case ReconcileMarked(partner, _, _) => partner == p
      case ReconcileReset(partner, _, _) => partner == p
      case ReconcileRecorded(partner, _, _) => partner == p
      case _ => false
    }

    /** The settlement row this transaction keeps locked until it ends. */
    predicate LocksSettlement(i: nat) {
      (ReconcileMarked? || ReconcileReset? || ReconcileRecorded?) && i in marked
    }

    /** The purchase whose unique key this transaction has taken without committing yet. */
    predicate LocksPurchase(purchase: nat) {
      (CreateInserted? || CreateUpserted?) && row.purchase == purchase
    }
  }

  datatype System = System(db: Db, txs: map<nat, Tx>)

  predicate BalanceFree(s: System, p: nat) {
    forall t :: t in s.txs ==> !s.txs[t].LocksBalance(p)
  }

  predicate SettlementFree(s: System, i: nat) {
    forall t :: t in s.txs ==> !s.txs[t].LocksSettlement(i)
  }

  predicate PurchaseFree(s: System, purchase: nat) {
    forall t :: t in s.txs ==> !s.txs[t].LocksPurchase(purchase)
  }

  predicate PurchaseKnown(db: Db, purchase: nat) {
    exists i :: 0 <= i < |db.settlements| && db.settlements[i].purchase == purchase
  }

  /** The committed rows that an update of the partner's open settlements sees. */
  function OpenRows(ss: seq<Settlement>, p: nat): set<nat> {
    set i: nat | i < |ss| && ss[i].partner == p && ss[i].Open()
  }

  function Settle(ss: seq<Settlement>, marked: set<nat>): (r: seq<Settlement>)
    ensures |r| == |ss|
  {
    seq(|ss|, i requires 0 <= i < |ss| => if i in marked then ss[i].(status := Settled) else ss[i])
  }

  // ---- What a commit or a single statement does to the tables ----

  function AfterCreate(db: Db, row: Settlement, balance: Balance): Db {
    db.(settlements := db.settlements + [row], balances := db.balances[row.partner := balance])
  }

  function AfterReconcile(db: Db, p: nat, net: int, marked: set<nat>): Db {
    Db(Settle(db.settlements, marked), db.balances[p := Balance(0, 0)], db.recs + [Reconciliation(p, net)])
  }

  function AfterConfirm(db: Db, i: nat): Db
    requires i < |db.settlements|
  {
    db.(settlements := db.settlements[i := db.settlements[i].(status := Confirmed)])
  }

  // ---- Statements ----

  datatype Label =
    | Begin(t: nat, tx: Tx)
    | Insert(t: nat)
    | InsertDuplicate(t: nat)
    | Upsert(t: nat)
    | CommitCreate(t: nat)
    | LockBalance(t: nat)
    | LockMissing(t: nat)
    | MarkSettled(t: nat)
    | ResetBalance(t: nat)
    | RecordReconciliation(t: nat)
    | CommitReconcile(t: nat)
    | Confirm(i: nat)
    | Rollback(t: nat)

  predicate Enabled(s: System, l: Label) {
    match l
    case Begin(t, tx) =>
      t !in s.txs && ((tx.CreateBegun? && tx.row.status.Created?) || tx.ReconcileBegun?)
    case Insert(t) =>
      t in s.txs && s.txs[t].CreateBegun?
      && PurchaseFree(s, s.txs[t].row.purchase) && !PurchaseKnown(s.db, s.txs[t].row.purchase)
    case InsertDuplicate(t) =>
      t in s.txs && s.txs[t].CreateBegun?
      && PurchaseFree(s, s.txs[t].row.purchase) && PurchaseKnown(s.db, s.txs[t].row.purchase)
    case Upsert(t) => t in s.txs && s.txs[t].CreateInserted? && BalanceFree(s, s.txs[t].row.partner)
    case CommitCreate(t) => t in s.txs && s.txs[t].CreateUpserted?
    case LockBalance(t) =>
      t in s.txs && s.txs[t].ReconcileBegun?
      && s.txs[t].partner in s.db.balances && BalanceFree(s, s.txs[t].partner)
    case LockMissing(t) => t in s.txs && s.txs[t].ReconcileBegun? && s.txs[t].partner !in s.db.balances
    case MarkSettled(t) =>
      t in s.txs && s.txs[t].ReconcileLocked?
      && forall i :: i in OpenRows(s.db.settlements, s.txs[t].partner) ==> SettlementFree(s, i)
    case ResetBalance(t) => t in s.txs && s.txs[t].ReconcileMarked?
    case RecordReconciliation(t) => t in s.txs && s.txs[t].ReconcileReset?
    case CommitReconcile(t) => t in s.txs && s.txs[t].ReconcileRecorded?
    case Confirm(i) => i < |s.db.settlements| && s.db.settlements[i].status.Created? && SettlementFree(s, i)
    case Rollback(t) => t in s.txs
  }

  function Without(txs: map<nat, Tx>, t: nat): map<nat, Tx> {
    txs - {t}
  }

  function Step(s: System, l: Label): System
    requires Enabled(s, l)
  {
    match l
    case Begin(t, tx) => s.(txs := s.txs[t := tx])
    case Insert(t) => s.(txs := s.txs[t := CreateInserted(s.txs[t].row)])
    case InsertDuplicate(t) => s.(txs := Without(s.txs, t))
    case Upsert(t) =>
      var row := s.txs[t].row;
      s.(txs := s.txs[t := CreateUpserted(row, s.db.BalanceOf(row.partner).Plus(row.debtor, row.amount))])
    case CommitCreate(t) =>
      var tx := s.txs[t];
      System(AfterCreate(s.db, tx.row, tx.balance), Without(s.txs, t))
    case LockBalance(t) =>
      var p := s.txs[t].partner;
      s.(txs := s.txs[t := ReconcileLocked(p, s.db.balances[p].Net())])
    case LockMissing(t) => s.(txs := Without(s.txs, t))
    case MarkSettled(t) =>
      var tx := s.txs[t];
      s.(txs := s.txs[t := ReconcileMarked(tx.partner, tx.net, OpenRows(s.db.settlements, tx.partner))])
    case ResetBalance(t) =>
      var tx := s.txs[t];
      s.(txs := s.txs[t := ReconcileReset(tx.partner, tx.net, tx.marked)])
    case RecordReconciliation(t) =>
      var tx := s.txs[t];
      s.(txs := s.txs[t := ReconcileRecorded(tx.partner, tx.net, tx.marked)])
    case CommitReconcile(t) =>
      var tx := s.txs[t];
      System(AfterReconcile(s.db, tx.partner, tx.net, tx.marked), Without(s.txs, t))
    case Confirm(i) => s.(db := AfterConfirm(s.db, i))
    case Rollback(t) => s.(txs := Without(s.txs, t))
  }

  const EMPTY := System(Db([], map[], []), map[])

  ghost predicate IsRun(labels: seq<Label>, states: seq<System>) {
    && |states| == |labels| + 1
    && states[0] == EMPTY
    && forall k :: 0 <= k < |labels| ==> Enabled(states[k], labels[k]) && states[k + 1] == Step(states[k], labels[k])
  }

  // ---- Sums over the tables ----

  /** What one side owes over a partner's open settlements. */
  function OpenSum(ss: seq<Settlement>, p: nat, debtor: Debtor): int {
    if ss == [] then 0
    else
      var last := ss[|ss| - 1];
      OpenSum(ss[..|ss| - 1], p, debtor)
      + if last.partner == p && last.Open() && last.debtor == debtor then last.amount else 0
  }

  /** The signed sum of all settlements ever made with a partner. */
  function SignedSum(ss: seq<Settlement>, p: nat): int {
    if ss == [] then 0
    else
      var last := ss[|ss| - 1];
      SignedSum(ss[..|ss| - 1], p) + if last.partner == p then last.Signed() else 0
  }

  function ReconciledSum(rs: seq<Reconciliation>, p: nat): int {
    if rs == [] then 0
    else
      var last := rs[|rs| - 1];
      ReconciledSum(rs[..|rs| - 1], p) + if last.partner == p then last.amount else 0
  }

  /** What the rows closed by reconciliations add up to. */
  function SettledSum(ss: seq<Settlement>, p: nat): int {
    if ss == [] then 0
    else
      var last := ss[|ss| - 1];
      SettledSum(ss[..|ss| - 1], p) + if last.partner == p && !last.Open() then last.Signed() else 0
  }

  lemma {:induction false} SignedSplits(ss: seq<Settlement>, p: nat)
    ensures SignedSum(ss, p) == OpenSum(ss, p, Bank) - OpenSum(ss, p, Partner) + SettledSum(ss, p)
  {
    if ss != [] {
      SignedSplits(ss[..|ss| - 1], p);
    }
  }

  lemma SumsSnoc(ss: seq<Settlement>, row: Settlement, p: nat)
    requires row.Open()
    ensures OpenSum(ss + [row], p, Bank)
         == OpenSum(ss, p, Bank) + if row.partner == p && row.debtor == Bank then row.amount else 0
    ensures OpenSum(ss + [row], p, Partner)
         == OpenSum(ss, p, Partner) + if row.partner == p && row.debtor == Partner then row.amount else 0
    ensures SignedSum(ss + [row], p) == SignedSum(ss, p) + if row.partner == p then row.Signed() else 0
  {
    assert (ss + [row])[..|ss|] == ss;
  }

  lemma ReconciledSnoc(rs: seq<Reconciliation>, r: Reconciliation, p: nat)
    ensures ReconciledSum(rs + [r], p) == ReconciledSum(rs, p) + if r.partner == p then r.amount else 0
  {
    assert (rs + [r])[..|rs|] == rs;
  }

  /** Changing a row's status without closing it changes no sum. */
  lemma {:induction false} ConfirmKeepsSums(ss: seq<Settlement>, i: nat, p: nat, d: Debtor)
    requires i < |ss| && ss[i].status.Created?
    ensures OpenSum(ss[i := ss[i].(status := Confirmed)], p, d) == OpenSum(ss, p, d)
    ensures SignedSum(ss[i := ss[i].(status := Confirmed)], p) == SignedSum(ss, p)
  {
    var k := |ss| - 1;
    var ss' := ss[i := ss[i].(status := Confirmed)];
    if i < k {
      assert ss'[..k] == ss[..k][i := ss[i].(status := Confirmed)];
      ConfirmKeepsSums(ss[..k], i, p, d);
    } else {
      assert ss'[..k] == ss[..k];
    }
  }

  /** Closing all of a partner's open rows empties its open sums and leaves everything else. */
  lemma {:induction false} SettleSums(ss: seq<Settlement>, marked: set<nat>, q: nat, p: nat, d: Debtor)
    requires forall i: nat :: i < |ss| ==> (i in marked <==> ss[i].partner == q && ss[i].Open())
    ensures OpenSum(Settle(ss, marked), p, d) == if p == q then 0 else OpenSum(ss, p, d)
    ensures SignedSum(Settle(ss, marked), p) == SignedSum(ss, p)
  {
    if ss != [] {
      var k := |ss| - 1;
      SettleSums(ss[..k], marked, q, p, d);
      assert Settle(ss, marked)[..k] == Settle(ss[..k], marked);
    }
  }

  // ---- The invariant ----

  /** The balance row says exactly what the open settlements add up to. */
  ghost predicate Balanced(db: Db, p: nat) {
    db.BalanceOf(p) == Balance(OpenSum(db.settlements, p, Bank), OpenSum(db.settlements, p, Partner))
  }

  /** What was reconciled plus what is still open is everything that was ever settled on. */
  ghost predicate Conserved(db: Db, p: nat) {
    ReconciledSum(db.recs, p) + db.BalanceOf(p).Net() == SignedSum(db.settlements, p)
  }

  ghost predicate OnePerPurchase(db: Db) {
    forall i, j :: 0 <= i < j < |db.settlements| ==> db.settlements[i].purchase != db.settlements[j].purchase
  }

  ghost predicate DbInv(db: Db) {
    && (forall p :: Balanced(db, p) && Conserved(db, p))
    && OnePerPurchase(db)
  }

  /** What holds of one transaction between its statements, whatever the others do. */
  ghost predicate TxInv(db: Db, tx: Tx) {
    match tx
    case CreateBegun(row) => row.status.Created?
    case CreateInserted(row) => row.status.Created? && !PurchaseKnown(db, row.purchase)
    case CreateUpserted(row, balance) =>
      row.status.Created? && !PurchaseKnown(db, row.purchase)
      && balance == db.BalanceOf(row.partner).Plus(row.debtor, row.amount)
    case ReconcileBegun(_) => true
    case ReconcileLocked(p, net) => net == db.BalanceOf(p).Net()
    case ReconcileMarked(p, net, marked) => net == db.BalanceOf(p).Net() && marked == OpenRows(db.settlements, p)
    case ReconcileReset(p, net, marked) => net == db.BalanceOf(p).Net() && marked == OpenRows(db.settlements, p)
    case ReconcileRecorded(p, net, marked) => net == db.BalanceOf(p).Net() && marked == OpenRows(db.settlements, p)
  }

  /** No two transactions hold the same balance row or the same purchase key. */
  ghost predicate Exclusive(a: Tx, b: Tx) {
    && (forall p :: !(a.LocksBalance(p) && b.LocksBalance(p)))
    && (forall k :: !(a.LocksPurchase(k) && b.LocksPurchase(k)))
  }

  ghost predicate Inv(s: System) {
    && DbInv(s.db)
    && (forall t :: t in s.txs ==> TxInv(s.db, s.txs[t]))
    && (forall t, u :: t in s.txs && u in s.txs && t != u ==> Exclusive(s.txs[t], s.txs[u]))
  }

  lemma InitInv()
    ensures Inv(EMPTY)
  {
    hide TxInv, Exclusive;
    forall p
      ensures Balanced(EMPTY.db, p) && Conserved(EMPTY.db, p)
    {
      assert OpenSum([], p, Bank) == OpenSum([], p, Partner) == SignedSum([], p) == ReconciledSum([], p) == 0;
    }
  }

  // ---- The tables ----

  lemma CreateKeepsBalanced(db: Db, row: Settlement, p: nat)
    requires Balanced(db, p) && row.Open()
    ensures Balanced(AfterCreate(db, row, db.BalanceOf(row.partner).Plus(row.debtor, row.amount)), p)
  {
    hide OpenSum, SignedSum, Settlement.Open;
    SumsSnoc(db.settlements, row, p);
    if p == row.partner && row.debtor.Bank? {
    } else if p == row.partner {
    } else {
    }
  }

  lemma CreateMovesBalances(db: Db, row: Settlement, balance: Balance, p: nat)
    ensures AfterCreate(db, row, balance).BalanceOf(p) == if p == row.partner then balance else db.BalanceOf(p)
  {
  }

  lemma CreateKeepsConserved(db: Db, row: Settlement, p: nat)
    requires Conserved(db, p) && row.Open()
    ensures Conserved(AfterCreate(db, row, db.BalanceOf(row.partner).Plus(row.debtor, row.amount)), p)
  {
    hide OpenSum, SignedSum, ReconciledSum, Settlement.Open, Db.BalanceOf;
    CreateMovesBalances(db, row, db.BalanceOf(row.partner).Plus(row.debtor, row.amount), p);
    SumsSnoc(db.settlements, row, p);
    if p == row.partner {
      PlusSigned(db.BalanceOf(p), row);
      hide Balance.Plus, Balance.Net, Settlement.Signed;
    }
  }

  lemma PlusSigned(b: Balance, row: Settlement)
    ensures b.Plus(row.debtor, row.amount).Net() == b.Net() + row.Signed()
  {
  }

  lemma CreateKeepsTables(db: Db, row: Settlement, balance: Balance)
    requires DbInv(db) && TxInv(db, CreateUpserted(row, balance))
    ensures DbInv(AfterCreate(db, row, balance))
  {
    hide Balanced, Conserved, OpenRows, Balance.Plus;
    forall p
      ensures Balanced(AfterCreate(db, row, balance), p) && Conserved(AfterCreate(db, row, balance), p)
    {
      CreateKeepsBalanced(db, row, p);
      CreateKeepsConserved(db, row, p);
    }
  }

  lemma ReconcileKeepsBalanced(db: Db, p: nat, q: nat)
    requires Balanced(db, q)
    ensures Balanced(AfterReconcile(db, p, db.BalanceOf(p).Net(), OpenRows(db.settlements, p)), q)
  {
    hide OpenSum, SignedSum, ReconciledSum, Settle;
    SettleSums(db.settlements, OpenRows(db.settlements, p), p, q, Bank);
    SettleSums(db.settlements, OpenRows(db.settlements, p), p, q, Partner);
  }

  lemma ReconcileMovesBalances(db: Db, p: nat, net: int, marked: set<nat>, q: nat)
    ensures AfterReconcile(db, p, net, marked).BalanceOf(q) == if q == p then Balance(0, 0) else db.BalanceOf(q)
  {
    hide Settle;
  }

  lemma ReconcileKeepsConserved(db: Db, p: nat, q: nat)
    requires Conserved(db, q)
    ensures Conserved(AfterReconcile(db, p, db.BalanceOf(p).Net(), OpenRows(db.settlements, p)), q)
  {
    var net, marked := db.BalanceOf(p).Net(), OpenRows(db.settlements, p);
    var db' := AfterReconcile(db, p, net, marked);
    assert db'.recs == db.recs + [Reconciliation(p, net)] && db'.settlements == Settle(db.settlements, marked);
    assert Balance(0, 0).Net() == 0;
    ReconcileKeepsSigned(db.settlements, p, q);
    ReconciledSnoc(db.recs, Reconciliation(p, net), q);
    ReconcileMovesBalances(db, p, net, marked, q);
    hide OpenSum, SignedSum, ReconciledSum, Settle, OpenRows, Db.BalanceOf, AfterReconcile, Balance.Net;
  }

  lemma ReconcileKeepsSigned(ss: seq<Settlement>, p: nat, q: nat)
    ensures SignedSum(Settle(ss, OpenRows(ss, p)), q) == SignedSum(ss, q)
  {
    SettleSums(ss, OpenRows(ss, p), p, q, Bank);
  }

  lemma ReconcileKeepsTables(db: Db, p: nat, net: int, marked: set<nat>)
    requires DbInv(db) && TxInv(db, ReconcileRecorded(p, net, marked))
    ensures DbInv(AfterReconcile(db, p, net, marked))
  {
    hide Balanced, Conserved, OpenRows, Balance.Net;
    forall q
      ensures Balanced(AfterReconcile(db, p, net, marked), q) && Conserved(AfterReconcile(db, p, net, marked), q)
    {
      ReconcileKeepsBalanced(db, p, q);
      ReconcileKeepsConserved(db, p, q);
    }
  }

  lemma ConfirmKeepsTables(db: Db, i: nat)
    requires DbInv(db) && i < |db.settlements| && db.settlements[i].status.Created?
    ensures DbInv(AfterConfirm(db, i))
  {
    hide OpenSum, SignedSum, ReconciledSum, Db.BalanceOf, OnePerPurchase;
    var db' := AfterConfirm(db, i);
    forall p
      ensures Balanced(db', p) && Conserved(db', p)
    {
      assert Balanced(db, p) && Conserved(db, p);
      ConfirmKeepsSums(db.settlements, i, p, Bank);
      ConfirmKeepsSums(db.settlements, i, p, Partner);
      assert db'.BalanceOf(p) == db.BalanceOf(p) by { ConfirmKeepsBalances(db, i, p); }
    }
    ConfirmKeepsKeys(db, i);
  }

  lemma ConfirmKeepsBalances(db: Db, i: nat, p: nat)
    requires i < |db.settlements|
    ensures AfterConfirm(db, i).BalanceOf(p) == db.BalanceOf(p)
  {
  }

  lemma ConfirmKeepsKeys(db: Db, i: nat)
    requires OnePerPurchase(db) && i < |db.settlements|
    ensures OnePerPurchase(AfterConfirm(db, i))
  {
  }

  // ---- The other transactions ----

  /** Two states of the tables that look the same to whoever works on partner p. */
  ghost predicate SameView(db: Db, db': Db, p: nat) {
    db'.BalanceOf(p) == db.BalanceOf(p) && OpenRows(db'.settlements, p) == OpenRows(db.settlements, p)
  }

  /** A transaction depends on nothing but the rows and keys it has locked. */
  lemma LocksProtect(db: Db, db': Db, tx: Tx)
    requires TxInv(db, tx)
    requires forall p :: tx.LocksBalance(p) ==> SameView(db, db', p)
    requires forall k :: tx.LocksPurchase(k) && PurchaseKnown(db', k) ==> PurchaseKnown(db, k)
    ensures TxInv(db', tx)
  {
    hide PurchaseKnown, OpenRows, Db.BalanceOf;
    match tx
    case CreateInserted(row) => assert tx.LocksPurchase(row.purchase);
    case CreateUpserted(row, _) => assert tx.LocksPurchase(row.purchase) && tx.LocksBalance(row.partner);
    case ReconcileLocked(p, _) => assert tx.LocksBalance(p);
    case ReconcileMarked(p, _, _) => assert tx.LocksBalance(p);
    case ReconcileReset(p, _, _) => assert tx.LocksBalance(p);
    case ReconcileRecorded(p, _, _) => assert tx.LocksBalance(p);
    case _ =>
  }

  lemma CreateSparesOthers(db: Db, row: Settlement, balance: Balance, other: Tx)
    requires TxInv(db, other) && Exclusive(CreateUpserted(row, balance), other)
    ensures TxInv(AfterCreate(db, row, balance), other)
  {
    hide TxInv;
    var tx, db' := CreateUpserted(row, balance), AfterCreate(db, row, balance);
    assert tx.LocksBalance(row.partner) && tx.LocksPurchase(row.purchase);
    forall p | p != row.partner
      ensures SameView(db, db', p)
    {
    }
    forall k | k != row.purchase && PurchaseKnown(db', k)
      ensures PurchaseKnown(db, k)
    {
      var i :| 0 <= i < |db'.settlements| && db'.settlements[i].purchase == k;
      assert db.settlements[i].purchase == k;
    }
    LocksProtect(db, db', other);
  }

  lemma ReconcileSparesOthers(db: Db, p: nat, net: int, marked: set<nat>, other: Tx)
    requires marked == OpenRows(db.settlements, p)
    requires TxInv(db, other) && Exclusive(ReconcileRecorded(p, net, marked), other)
    ensures TxInv(AfterReconcile(db, p, net, marked), other)
  {
    hide TxInv;
    var tx, db' := ReconcileRecorded(p, net, marked), AfterReconcile(db, p, net, marked);
    assert tx.LocksBalance(p);
    forall q | q != p
      ensures SameView(db, db', q)
    {
    }
    forall k | PurchaseKnown(db', k)
      ensures PurchaseKnown(db, k)
    {
      var i :| 0 <= i < |db'.settlements| && db'.settlements[i].purchase == k;
      assert db.settlements[i].purchase == k;
    }
    LocksProtect(db, db', other);
  }

  lemma ConfirmSparesOthers(db: Db, i: nat, other: Tx)
    requires i < |db.settlements| && db.settlements[i].status.Created?
    requires TxInv(db, other)
    ensures TxInv(AfterConfirm(db, i), other)
  {
    hide TxInv;
    var db' := AfterConfirm(db, i);
    forall p
      ensures SameView(db, db', p)
    {
    }
    forall k | PurchaseKnown(db', k)
      ensures PurchaseKnown(db, k)
    {
      var j :| 0 <= j < |db'.settlements| && db'.settlements[j].purchase == k;
      assert db.settlements[j].purchase == k;
    }
    LocksProtect(db, db', other);
  }

  // ---- Steps ----

  lemma CommitCreateInv(s: System, t: nat)
    requires Inv(s) && Enabled(s, CommitCreate(t))
    ensures Inv(Step(s, CommitCreate(t)))
  {
    hide TxInv, Exclusive, AfterCreate, DbInv;
    var s', tx := Step(s, CommitCreate(t)), s.txs[t];
    CreateKeepsTables(s.db, tx.row, tx.balance);
    forall u | u in s'.txs
      ensures TxInv(s'.db, s'.txs[u])
    {
      CreateSparesOthers(s.db, tx.row, tx.balance, s.txs[u]);
    }
  }

  lemma RecordedMarks(db: Db, tx: Tx)
    requires tx.ReconcileRecorded? && TxInv(db, tx)
    ensures tx.marked == OpenRows(db.settlements, tx.partner)
  {
  }

  lemma CommitReconcileInv(s: System, t: nat)
    requires Inv(s) && Enabled(s, CommitReconcile(t))
    ensures Inv(Step(s, CommitReconcile(t)))
  {
    hide TxInv, Exclusive, AfterReconcile, DbInv, OpenRows;
    var s', tx := Step(s, CommitReconcile(t)), s.txs[t];
    assert tx.marked == OpenRows(s.db.settlements, tx.partner) by { RecordedMarks(s.db, tx); }
    ReconcileKeepsTables(s.db, tx.partner, tx.net, tx.marked);
    forall u | u in s'.txs
      ensures TxInv(s'.db, s'.txs[u])
    {
      ReconcileSparesOthers(s.db, tx.partner, tx.net, tx.marked, s.txs[u]);
    }
  }

  lemma ConfirmInv(s: System, i: nat)
    requires Inv(s) && Enabled(s, Confirm(i))
    ensures Inv(Step(s, Confirm(i)))
  {
    hide TxInv, Exclusive, AfterConfirm, DbInv;
    var s' := Step(s, Confirm(i));
    ConfirmKeepsTables(s.db, i);
    forall u | u in s'.txs
      ensures TxInv(s'.db, s'.txs[u])
    {
      ConfirmSparesOthers(s.db, i, s.txs[u]);
    }
  }

  predicate Private(l: Label) {
    !l.CommitCreate? && !l.CommitReconcile? && !l.Confirm?
  }

  /** A statement that only changes its own transaction leaves the rest alone. */
  lemma PrivateStepFrame(s: System, l: Label)
    requires Enabled(s, l) && Private(l)
    ensures Step(s, l).db == s.db
    ensures forall u :: u != l.t ==> (u in Step(s, l).txs <==> u in s.txs)
    ensures forall u :: u != l.t && u in s.txs ==> Step(s, l).txs[u] == s.txs[u]
  {
    hide PurchaseKnown, PurchaseFree, BalanceFree, SettlementFree, OpenRows;
  }

  lemma CreateStatementView(s: System, l: Label)
    requires Enabled(s, l) && (l.Begin? || l.Insert? || l.Upsert?)
    requires l.t in s.txs ==> TxInv(s.db, s.txs[l.t])
    ensures l.t in Step(s, l).txs ==> TxInv(s.db, Step(s, l).txs[l.t])
  {
    hide PurchaseKnown, PurchaseFree, BalanceFree, SettlementFree, OpenRows, Settle, Balance.Plus, Db.BalanceOf;
  }

  lemma ReconcileStatementView(s: System, l: Label)
    requires Enabled(s, l) && (l.LockBalance? || l.MarkSettled? || l.ResetBalance? || l.RecordReconciliation?)
    requires TxInv(s.db, s.txs[l.t])
    ensures l.t in Step(s, l).txs ==> TxInv(s.db, Step(s, l).txs[l.t])
  {
    hide PurchaseKnown, PurchaseFree, BalanceFree, SettlementFree, OpenRows, Settle, Balance.Net;
  }

  lemma EndsTransaction(s: System, l: Label)
    requires Enabled(s, l) && (l.InsertDuplicate? || l.LockMissing? || l.Rollback?)
    ensures l.t !in Step(s, l).txs
  {
    hide PurchaseKnown, PurchaseFree, BalanceFree, SettlementFree, OpenRows, Settle;
  }

  lemma PrivateStepView(s: System, l: Label)
    requires Enabled(s, l) && Private(l) && (l.t in s.txs ==> TxInv(s.db, s.txs[l.t]))
    ensures l.t in Step(s, l).txs ==> TxInv(s.db, Step(s, l).txs[l.t])
  {
    if l.Begin? || l.Insert? || l.Upsert? {
      hide TxInv, Enabled, Step;
      CreateStatementView(s, l);
    } else if l.InsertDuplicate? || l.LockMissing? || l.Rollback? {
      hide TxInv, Enabled, Step;
      EndsTransaction(s, l);
    } else {
      assert l.t in s.txs;
      hide TxInv, Enabled, Step;
      ReconcileStatementView(s, l);
    }
  }

  /** It takes a lock only when nobody else holds it. */
  lemma PrivateStepLocks(s: System, l: Label, u: nat)
    requires Enabled(s, l) && Private(l) && u in s.txs && u != l.t
    requires l.t in s.txs ==> Exclusive(s.txs[l.t], s.txs[u])
    ensures l.t in Step(s, l).txs ==> Exclusive(Step(s, l).txs[l.t], s.txs[u])
  {
    hide PurchaseKnown, OpenRows, Db.BalanceOf, Settle;
  }

  lemma PrivateStepInv(s: System, l: Label)
    requires Inv(s) && Enabled(s, l) && Private(l)
    ensures Inv(Step(s, l))
  {
    hide DbInv, TxInv, Enabled, Step;
    PrivateStepFrame(s, l);
    PrivateStepView(s, l);
    var s' := Step(s, l);
    forall u | u in s'.txs && u != l.t && l.t in s'.txs
      ensures Exclusive(s'.txs[l.t], s'.txs[u]) && Exclusive(s'.txs[u], s'.txs[l.t])
    {
      PrivateStepLocks(s, l, u);
    }
  }

  lemma StepInv(s: System, l: Label)
    requires Inv(s) && Enabled(s, l)
    ensures Inv(Step(s, l))
  {
    hide Inv, Step;
    match l
    case CommitCreate(t) => CommitCreateInv(s, t);
    case CommitReconcile(t) => CommitReconcileInv(s, t);
    case Confirm(i) => ConfirmInv(s, i);
    case _ => PrivateStepInv(s, l);
  }

  lemma {:induction false} RunInv(labels: seq<Label>, states: seq<System>, k: nat)
    requires IsRun(labels, states) && k < |states|
    ensures Inv(states[k])
  {
    hide Enabled, Step, Inv;
    if k == 0 {
      InitInv();
    } else {
      RunInv(labels, states, k - 1);
      StepInv(states[k - 1], labels[k - 1]);
    }
  }

  lemma ReconciledIsSettled(db: Db, p: nat)
    requires Balanced(db, p) && Conserved(db, p)
    ensures ReconciledSum(db.recs, p) == SettledSum(db.settlements, p)
  {
    hide OpenSum, SignedSum, SettledSum, ReconciledSum, Db.BalanceOf;
    SignedSplits(db.settlements, p);
  }

  /**
   * After every statement of every interleaving: each partner's committed balance is the sum of its
   * open settlements, reconciled amounts plus the open net are the sum of all settlements ever made,
   * what was reconciled is what the settled rows add up to, and no purchase has two settlements.
   */
  lemma EveryRunBalances(labels: seq<Label>, states: seq<System>, k: nat)
    requires IsRun(labels, states) && k < |states|
    ensures forall p :: Balanced(states[k].db, p) && Conserved(states[k].db, p)
    ensures forall p :: ReconciledSum(states[k].db.recs, p) == SettledSum(states[k].db.settlements, p)
    ensures OnePerPurchase(states[k].db)
  {
    RunInv(labels, states, k);
    hide IsRun, TxInv, Exclusive, OnePerPurchase, Balanced, Conserved, SettledSum, ReconciledSum;
    forall p
      ensures ReconciledSum(states[k].db.recs, p) == SettledSum(states[k].db.settlements, p)
    {
      ReconciledIsSettled(states[k].db, p);
    }
  }

  // ---- Nobody waits forever ----

  /** A statement of a running transaction, other than giving up. */
  predicate Advances(l: Label) {
    !l.Begin? && !l.Confirm? && !l.Rollback?
  }

  lemma HolderAdvances(s: System, t: nat)
    requires Inv(s) && t in s.txs && exists p :: s.txs[t].LocksBalance(p)
    ensures exists l :: Advances(l) && Enabled(s, l)
  {
    hide Inv, PurchaseKnown, PurchaseFree, SettlementFree, OpenRows, Settle;
    match s.txs[t]
    case CreateUpserted(_, _) => assert Advances(CommitCreate(t)) && Enabled(s, CommitCreate(t));
    case ReconcileLocked(p, _) =>
      RowsAreFree(s, t);
      assert Advances(MarkSettled(t)) && Enabled(s, MarkSettled(t));
    case ReconcileMarked(_, _, _) => assert Advances(ResetBalance(t)) && Enabled(s, ResetBalance(t));
    case ReconcileReset(_, _, _) => assert Advances(RecordReconciliation(t)) && Enabled(s, RecordReconciliation(t));
    case ReconcileRecorded(_, _, _) => assert Advances(CommitReconcile(t)) && Enabled(s, CommitReconcile(t));
  }

  lemma OneOwner(ss: seq<Settlement>, i: nat, p: nat, q: nat)
    requires i in OpenRows(ss, p) && i in OpenRows(ss, q)
    ensures p == q
  {
  }

  lemma LockedRowsAreOpen(db: Db, tx: Tx, i: nat)
    requires TxInv(db, tx) && tx.LocksSettlement(i)
    ensures tx.ReconcileMarked? || tx.ReconcileReset? || tx.ReconcileRecorded?
    ensures tx.LocksBalance(tx.partner) && i in OpenRows(db.settlements, tx.partner)
  {
    hide OpenRows, PurchaseKnown, Balance.Net, Balance.Plus, Db.BalanceOf;
  }

  /** The balance row's lock covers the partner's settlement rows too. */
  lemma RowsAreFree(s: System, t: nat)
    requires Inv(s) && t in s.txs && s.txs[t].ReconcileLocked?
    ensures forall i :: i in OpenRows(s.db.settlements, s.txs[t].partner) ==> SettlementFree(s, i)
  {
    hide DbInv, TxInv, OpenRows, Tx.LocksSettlement;
    var p := s.txs[t].partner;
    forall i, u | i in OpenRows(s.db.settlements, p) && u in s.txs
      ensures !s.txs[u].LocksSettlement(i)
    {
      if s.txs[u].LocksSettlement(i) {
        LockedRowsAreOpen(s.db, s.txs[u], i);
        OneOwner(s.db.settlements, i, p, s.txs[u].partner);
        assert false;
      }
    }
  }

  lemma BalanceWaiterAdvances(s: System, t: nat, p: nat, l: Label)
    requires Inv(s) && t in s.txs && Advances(l)
    requires BalanceFree(s, p) ==> Enabled(s, l)
    ensures exists m :: Advances(m) && Enabled(s, m)
  {
    hide Inv, Enabled, Advances;
    if !BalanceFree(s, p) {
      var u :| u in s.txs && s.txs[u].LocksBalance(p);
      HolderAdvances(s, u);
    }
  }

  /** While any transaction runs, some transaction can complete its next statement: no deadlock is reachable. */
  lemma NoDeadlock(s: System)
    requires Inv(s) && s.txs != map[]
    ensures exists l :: Advances(l) && Enabled(s, l)
  {
    hide Inv, PurchaseKnown, Tx.LocksBalance;
    var t :| t in s.txs;
    match s.txs[t]
    case CreateBegun(row) =>
      if PurchaseFree(s, row.purchase) {
        if PurchaseKnown(s.db, row.purchase) {
          assert Advances(InsertDuplicate(t)) && Enabled(s, InsertDuplicate(t));
        } else {
          assert Advances(Insert(t)) && Enabled(s, Insert(t));
        }
      } else {
        var u :| u in s.txs && s.txs[u].LocksPurchase(row.purchase);
        if s.txs[u].CreateInserted? {
          BalanceWaiterAdvances(s, u, s.txs[u].row.partner, Upsert(u));
        } else {
          assert Advances(CommitCreate(u)) && Enabled(s, CommitCreate(u));
        }
      }
    case CreateInserted(row) => BalanceWaiterAdvances(s, t, row.partner, Upsert(t));
    case CreateUpserted(_, _) => assert Advances(CommitCreate(t)) && Enabled(s, CommitCreate(t));
    case ReconcileBegun(p) =>
      if p in s.db.balances {
        BalanceWaiterAdvances(s, t, p, LockBalance(t));
      } else {
        assert Advances(LockMissing(t)) && Enabled(s, LockMissing(t));
      }
    case ReconcileLocked(p, _) =>
      RowsAreFree(s, t);
      assert Advances(MarkSettled(t)) && Enabled(s, MarkSettled(t));
    case ReconcileMarked(_, _, _) => assert Advances(ResetBalance(t)) && Enabled(s, ResetBalance(t));
    case ReconcileReset(_, _, _) => assert Advances(RecordReconciliation(t)) && Enabled(s, RecordReconciliation(t));
    case ReconcileRecorded(_, _, _) => assert Advances(CommitReconcile(t)) && Enabled(s, CommitReconcile(t));
  }

  // ---- What a statement does ----

  /** How many statements a transaction has completed. */
  function Stage(tx: Tx): nat {
    match tx
    case CreateBegun(_) => 0
    case CreateInserted(_) => 1
    case CreateUpserted(_, _) => 2
    case ReconcileBegun(_) => 0
    case ReconcileLocked(_, _) => 1
    case ReconcileMarked(_, _, _) => 2
    case ReconcileReset(_, _, _) => 3
    case ReconcileRecorded(_, _, _) => 4
  }

  /**
   * Every statement takes one transaction to its next stage or ends it, for the same settlement or partner,
   * and touches no other transaction; only a commit changes what others see. So together with the absence
   * of deadlocks every transaction ends.
   */
  lemma StatementsAdvance(s: System, l: Label)
    requires Enabled(s, l) && Advances(l)
    ensures !l.CommitCreate? && !l.CommitReconcile? ==> Step(s, l).db == s.db
    ensures Moved(s.txs, Step(s, l).txs, l.t)
  {
    hide PurchaseKnown, PurchaseFree, BalanceFree, SettlementFree, OpenRows, AfterCreate, AfterReconcile, Balance.Net,
         Balance.Plus, Db.BalanceOf;
  }

  ghost predicate Moved(txs: map<nat, Tx>, txs': map<nat, Tx>, t: nat) {
    && t in txs && txs'.Keys <= txs.Keys
    && (forall u :: u in txs && u != t ==> u in txs' && txs'[u] == txs[u])
    && (t in txs' ==>
          && Stage(txs'[t]) == Stage(txs[t]) + 1
          && (CreatesRow(txs'[t]) <==> CreatesRow(txs[t]))
          && (CreatesRow(txs[t]) ==> txs'[t].row == txs[t].row)
          && (!CreatesRow(txs[t]) ==> txs'[t].partner == txs[t].partner))
  }

  predicate CreatesRow(tx: Tx) {
    tx.CreateBegun? || tx.CreateInserted? || tx.CreateUpserted?
  }

  /** A duplicate, a missing balance and a rollback end the transaction without a trace. */
  lemma EndsWithoutTrace(s: System, t: nat)
    ensures Enabled(s, InsertDuplicate(t)) ==> Step(s, InsertDuplicate(t)) == System(s.db, s.txs - {t})
    ensures Enabled(s, LockMissing(t)) ==> Step(s, LockMissing(t)) == System(s.db, s.txs - {t})
    ensures t in s.txs ==> Enabled(s, Rollback(t)) && Step(s, Rollback(t)) == System(s.db, s.txs - {t})
  {
  }

  /** A confirmation is one statement of its own. */
  lemma ConfirmStep(s: System, i: nat)
    requires Enabled(s, Confirm(i))
    ensures
      var s' := Step(s, Confirm(i));
      && s'.txs == s.txs && s.db.settlements[i].status == Created
      && s'.db == s.db.(settlements := s.db.settlements[i := s.db.settlements[i].(status := Confirmed)])
  {
  }

  /** Begun while nothing else runs, a reconciliation goes through its statements to its commit. */
  lemma SerialReconcile(s: System, t: nat, p: nat)
    requires s.txs == map[] && p in s.db.balances
    ensures Enabled(s, Begin(t, ReconcileBegun(p)))
    ensures var s1 := Step(s, Begin(t, ReconcileBegun(p)));
            Enabled(s1, LockBalance(t)) &&
            var s2 := Step(s1, LockBalance(t));
            Enabled(s2, MarkSettled(t)) &&
            var s3 := Step(s2, MarkSettled(t));
            Enabled(s3, ResetBalance(t)) &&
            var s4 := Step(s3, ResetBalance(t));
            Enabled(s4, RecordReconciliation(t)) &&
            var s5 := Step(s4, RecordReconciliation(t));
            Enabled(s5, CommitReconcile(t)) &&
            Step(s5, CommitReconcile(t))
            == System(AfterReconcile(s.db, p, s.db.balances[p].Net(), OpenRows(s.db.settlements, p)), map[])
  {
    hide OpenRows, AfterReconcile;
  }

  // ---- The repository object, one call at a time ----

  datatype Outcome = Done(row: Settlement) | Reconciled(rec: Reconciliation) | Updated | Duplicate | NotFound

  class CfaRepo {
    var settlements: seq<Settlement>
    var balances: map<nat, Balance>
    var recs: seq<Reconciliation>

    function Tables(): Db
      reads this
    {
      Db(settlements, balances, recs)
    }

    constructor ()
      ensures Tables() == EMPTY.db && DbInv(Tables())
    {
      settlements, balances, recs := [], map[], [];
      new;
      InitInv();
    }

    method CreateSettlement(purchase: nat, partner: nat, debtor: Debtor, amount: int) returns (r: Outcome)
      requires DbInv(Tables())
      modifies this
      ensures PurchaseKnown(old(Tables()), purchase) ==> r == Duplicate && Tables() == old(Tables())
      ensures !PurchaseKnown(old(Tables()), purchase) ==>
                var row := Settlement(purchase, partner, debtor, amount, Created);
                r == Done(row)
                && Tables() == AfterCreate(old(Tables()), row, old(Tables()).BalanceOf(partner).Plus(debtor, amount))
      ensures r.Done? ==>
                && settlements == old(settlements) + [Settlement(purchase, partner, debtor, amount, Created)]
                && Owes(old(balances), balances, partner, if debtor == Bank then amount else 0,
                        if debtor == Bank then 0 else amount)
                && recs == old(recs)
      ensures DbInv(Tables())
    {
      hide DbInv;
      if PurchaseKnown(Tables(), purchase) {
        return Duplicate;
      }
      var row := Settlement(purchase, partner, debtor, amount, Created);
      NewSettlementKeepsTables(Tables(), row);
      settlements := settlements + [row];
      UpsertBalance(partner, debtor, amount);
      r := Done(row);
    }

    method UpsertBalance(partner: nat, debtor: Debtor, amount: int)
      modifies this`balances
      ensures balances == old(balances)[partner := old(Tables()).BalanceOf(partner).Plus(debtor, amount)]
      ensures Owes(old(balances), balances, partner, if debtor == Bank then amount else 0,
                   if debtor == Bank then 0 else amount)
    {
      var bankOwes, partnerOwes := 0, 0;
      if debtor == Bank {
        bankOwes := amount;
      } else {
        partnerOwes := amount;
      }
      if partner in balances {
        var b := balances[partner];
        balances := balances[partner := Balance(b.bankOwes + bankOwes, b.partnerOwes + partnerOwes)];
      } else {
        balances := balances[partner := Balance(bankOwes, partnerOwes)];
      }
    }

    method Reconcile(partner: nat) returns (r: Outcome)
      requires DbInv(Tables())
      modifies this
      ensures partner !in old(balances) ==> r == NotFound && Tables() == old(Tables())
      ensures partner in old(balances) ==>
                var net := old(Tables()).BalanceOf(partner).Net();
                r == Reconciled(Reconciliation(partner, net))
                && Tables() == AfterReconcile(old(Tables()), partner, net, OpenRows(old(settlements), partner))
      ensures r.Reconciled? ==>
                && (forall q :: q in balances <==> q in old(balances))
                && (forall q :: q in balances ==>
                      balances[q] == if q == partner then Balance(0, 0) else old(balances)[q])
                && recs == old(recs) + [Reconciliation(
                             partner, old(balances)[partner].bankOwes - old(balances)[partner].partnerOwes)]
                && |settlements| == |old(settlements)|
                && forall i :: 0 <= i < |settlements| ==>
                     var row := old(settlements)[i];
                     settlements[i] == if row.partner == partner then row.(status := Settled) else row
      ensures DbInv(Tables())
    {
      hide DbInv, OpenRows, Settle;
      if partner !in balances {
        return NotFound;
      }
      var net := balances[partner].Net();
      NewReconciliationKeepsTables(Tables(), partner);
      settlements := MarkedSettled(settlements, partner);
      balances := balances[partner := Balance(0, 0)];
      recs := recs + [Reconciliation(partner, net)];
      r := Reconciled(Reconciliation(partner, net));
    }

    method ConfirmSettlement(i: nat) returns (r: Outcome)
      requires DbInv(Tables())
      modifies this`settlements
      ensures r == Updated <==> i < |old(settlements)| && old(settlements)[i].status.Created?
      ensures r == Updated ==> Tables() == AfterConfirm(old(Tables()), i)
      ensures r == Updated ==>
                && |settlements| == |old(settlements)|
                && (forall j :: 0 <= j < |settlements| && j != i ==> settlements[j] == old(settlements)[j])
                && settlements[i].status == Confirmed
                && settlements[i].(status := Created) == old(settlements)[i]
      ensures r != Updated ==> r == NotFound && settlements == old(settlements)
      ensures DbInv(Tables())
    {
      hide DbInv;
      if i >= |settlements| || !settlements[i].status.Created? {
        return NotFound;
      }
      ConfirmKeepsTables(Tables(), i);
      settlements := settlements[i := settlements[i].(status := Confirmed)];
      r := Updated;
    }
  }

  /** One partner's two sums grow by these amounts, from nothing where there was no row; no other row changes. */
  predicate Owes(before: map<nat, Balance>, after: map<nat, Balance>, partner: nat, bank: int, other: int) {
    && after.Keys == before.Keys + {partner}
    && (forall q :: q in before && q != partner ==> after[q] == before[q])
    && after[partner].bankOwes == (if partner in before then before[partner].bankOwes else 0) + bank
    && after[partner].partnerOwes == (if partner in before then before[partner].partnerOwes else 0) + other
  }

  /** A confirmed settlement cannot be confirmed again. */
  method ConfirmAgain(repo: CfaRepo, i: nat) returns (first: Outcome, second: Outcome)
    requires DbInv(repo.Tables())
    modifies repo
    ensures second == NotFound
  {
    first := repo.ConfirmSettlement(i);
    second := repo.ConfirmSettlement(i);
  }

  /** Committing a confirmation marks one row and leaves everything else as it was. */
  lemma ConfirmMarksOne(db: Db, i: nat)
    requires i < |db.settlements|
    ensures
      var db' := AfterConfirm(db, i);
      && |db'.settlements| == |db.settlements| && db'.balances == db.balances && db'.recs == db.recs
      && db'.settlements[i].status == Confirmed
      && db'.settlements[i].(status := db.settlements[i].status) == db.settlements[i]
      && forall j :: 0 <= j < |db.settlements| && j != i ==> db'.settlements[j] == db.settlements[j]
  {
  }

  lemma NewSettlementKeepsTables(db: Db, row: Settlement)
    requires DbInv(db) && row.status.Created? && !PurchaseKnown(db, row.purchase)
    ensures DbInv(AfterCreate(db, row, db.BalanceOf(row.partner).Plus(row.debtor, row.amount)))
  {
    hide DbInv, AfterCreate, PurchaseKnown;
    CreateKeepsTables(db, row, db.BalanceOf(row.partner).Plus(row.debtor, row.amount));
  }

  lemma NewReconciliationKeepsTables(db: Db, p: nat)
    requires DbInv(db)
    ensures DbInv(AfterReconcile(db, p, db.BalanceOf(p).Net(), OpenRows(db.settlements, p)))
  {
    hide DbInv, AfterReconcile, OpenRows, PurchaseKnown, Balance.Net, Balance.Plus, Db.BalanceOf;
    ReconcileKeepsTables(db, p, db.BalanceOf(p).Net(), OpenRows(db.settlements, p));
  }

  /** The row-by-row update closes exactly the partner's open rows. */
  method MarkedSettled(ss: seq<Settlement>, p: nat) returns (r: seq<Settlement>)
    ensures r == Settle(ss, OpenRows(ss, p))
    ensures |r| == |ss|
    ensures forall i :: 0 <= i < |ss| ==> r[i] == if ss[i].partner == p then ss[i].(status := Settled) else ss[i]
  {
    r := [];
    for i := 0 to |ss|
      invariant |r| == i
      invariant forall j :: 0 <= j < i ==> r[j] == Settle(ss, OpenRows(ss, p))[j]
    {
      if ss[i].partner == p && (ss[i].status.Created? || ss[i].status.Confirmed?) {
        r := r + [ss[i].(status := Settled)];
      } else {
        r := r + [ss[i]];
      }
    }
  }

  /** Four statements in a row, undisturbed, do what the repository's CreateSettlement does. */
  lemma SerialCreate(s: System, t: nat, row: Settlement)
    requires s.txs == map[] && row.status.Created? && !PurchaseKnown(s.db, row.purchase)
    ensures Enabled(s, Begin(t, CreateBegun(row)))
    ensures var s1 := Step(s, Begin(t, CreateBegun(row)));
            Enabled(s1, Insert(t)) &&
            var s2 := Step(s1, Insert(t));
            Enabled(s2, Upsert(t)) &&
            var s3 := Step(s2, Upsert(t));
            Enabled(s3, CommitCreate(t)) &&
            Step(s3, CommitCreate(t))
            == System(AfterCreate(s.db, row, s.db.BalanceOf(row.partner).Plus(row.debtor, row.amount)), map[])
  {
    hide PurchaseKnown, Balance.Plus, AfterCreate, Db.BalanceOf;
  }
}
