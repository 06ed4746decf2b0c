/**
 * Confirming a purchase through the event log: the API asks, a promo worker confirms the row and
 * republishes it on the topic it reads from, a settlement worker books the partner's commission.
 * Every event may be delivered to every worker any number of times, in any order.
 */
module PurchaseEvents {
  import S = Settlements

  // ---- Rows and events ----

  datatype PurchaseStatus = Pending | Confirmed | Cancelled

  /** Amounts are in cents and commissions in hundredths of a cent, so both are integers. */
  datatype Purchase = Purchase(
    id: nat, user: nat, promo: nat, partner: nat, amount: int, cpa: int, status: PurchaseStatus)

  datatype Key = Id | PurchaseId | UserId | PromoId | PartnerId | Amount | CpaAmount | Status

  datatype Json = Number(n: nat) | Money(x: int) | Text(status: PurchaseStatus)

  type Payload = map<Key, Json>

  datatype EventKind = PurchaseCreated | PurchaseConfirmed

  datatype Event = Event(kind: EventKind, payload: Payload)

  /** A purchase row as it is marshalled: its own id is under "id". */
  function RowPayload(p: Purchase): Payload {
    map[Id := Number(p.id), UserId := Number(p.user), PromoId := Number(p.promo), PartnerId := Number(p.partner),
        Amount := Money(p.amount), CpaAmount := Money(p.cpa), Status := Text(p.status)]
  }

  /** What the API publishes: the id is under "purchase_id", and there is no status. */
  function RequestPayload(p: Purchase): Payload {
    map[PurchaseId := Number(p.id), UserId := Number(p.user), PromoId := Number(p.promo),
        PartnerId := Number(p.partner), Amount := Money(p.amount)]
  }

  function RowEvent(p: Purchase): Event {
    Event(PurchaseConfirmed, RowPayload(p))
  }

  function RequestEvent(p: Purchase): Event {
    Event(PurchaseConfirmed, RequestPayload(p))
  }

  /** A missing key decodes to the zero value. */
  function NumberAt(m: Payload, k: Key): nat {
    if k in m && m[k].Number? then m[k].n else 0
  }

  function MoneyAt(m: Payload, k: Key): int {
    if k in m && m[k].Money? then m[k].x else 0
  }

  predicate SaysConfirmed(m: Payload) {
    Status in m && m[Status] == Text(Confirmed)
  }

  // ---- The workers' state ----

  /**
   * The outbox holds what a promo worker has confirmed but not yet published: a crash or a failed
   * publish in between loses it, because a redelivery finds the row no longer pending.
   */
  datatype World = World(
    purchases: map<nat, Purchase>, percents: map<nat, int>, topic: seq<Event>, outbox: seq<Event>, db: S.Db)

  datatype Label =
    | Create(p: Purchase)
    | SetPercent(partner: nat, percent: int)
    | Request(id: nat)
    | Cancel(id: nat)
    | DeliverToPromo(e: nat)
    | Publish
    | LosePublish
    | DeliverToCfa(e: nat)
    | ConfirmSettlement(row: nat)
    | Reconcile(partner: nat)

  /**
   * Ids come from a sequence that starts at 1. The API checks that a purchase is pending before it
   * publishes a request, but the row may be decided in between, so a request can be for any row.
   */
  predicate Enabled(w: World, l: Label) {
    match l
    case Create(p) => p.id > 0 && p.id !in w.purchases && p.status.Pending? && p.cpa == 0
    case SetPercent(_, _) => true
    case Request(id) => id in w.purchases
    case Cancel(id) => id in w.purchases && w.purchases[id].status.Pending?
    case DeliverToPromo(e) => e < |w.topic|
    case Publish => w.outbox != []
    case LosePublish => w.outbox != []
    case DeliverToCfa(e) => e < |w.topic|
    case ConfirmSettlement(i) => i < |w.db.settlements| && w.db.settlements[i].status.Created?
    case Reconcile(partner) => partner in w.db.balances
  }

  function WithStatus(w: World, id: nat, status: PurchaseStatus, cpa: int): World
    requires id in w.purchases
  {
    w.(purchases := w.purchases[id := w.purchases[id].(status := status, cpa := cpa)])
  }

  predicate IsPending(w: World, id: nat) {
    id in w.purchases && w.purchases[id].status.Pending?
  }

  function OnPurchaseConfirmed(w: World, m: Payload): World {
    var id, partner := NumberAt(m, PurchaseId), NumberAt(m, PartnerId);
    if partner !in w.percents || !IsPending(w, id) then w
    else
      var w' := WithStatus(w, id, Confirmed, MoneyAt(m, Amount) * w.percents[partner]);
      w'.(outbox := w.outbox + [RowEvent(w'.purchases[id])])
  }

  function PromoHandle(w: World, e: Event): World {
    if e.kind.PurchaseConfirmed? then OnPurchaseConfirmed(w, e.payload) else w
  }

  function Booking(m: Payload): S.Settlement {
    S.Settlement(NumberAt(m, Id), NumberAt(m, PartnerId), S.Bank, MoneyAt(m, CpaAmount), S.Created)
  }

  function CfaHandle(w: World, e: Event): World {
    if !e.kind.PurchaseConfirmed? || !SaysConfirmed(e.payload) || MoneyAt(e.payload, CpaAmount) <= 0 then w
    else if S.PurchaseKnown(w.db, NumberAt(e.payload, Id)) then w
    else
      var row := Booking(e.payload);
      w.(db := S.AfterCreate(w.db, row, w.db.BalanceOf(row.partner).Plus(row.debtor, row.amount)))
  }

  function Step(w: World, l: Label): World
    requires Enabled(w, l)
  {
    match l
    case Create(p) =>
      w.(purchases := w.purchases[p.id := p], topic := w.topic + [Event(PurchaseCreated, RowPayload(p))])
    case SetPercent(partner, percent) => w.(percents := w.percents[partner := percent])
    case Request(id) => w.(topic := w.topic + [RequestEvent(w.purchases[id])])
    case Cancel(id) => WithStatus(w, id, Cancelled, w.purchases[id].cpa)
    case DeliverToPromo(e) => PromoHandle(w, w.topic[e])
    case Publish => w.(topic := w.topic + [w.outbox[0]], outbox := w.outbox[1..])
    case LosePublish => w.(outbox := w.outbox[1..])
    case DeliverToCfa(e) => CfaHandle(w, w.topic[e])
    case ConfirmSettlement(i) => w.(db := S.AfterConfirm(w.db, i))
    case Reconcile(partner) =>
      w.(db := S.AfterReconcile(w.db, partner, w.db.BalanceOf(partner).Net(),
                                S.OpenRows(w.db.settlements, partner)))
  }

  const EMPTY := World(map[], map[], [], [], S.EMPTY.db)

  /** Any steps one after another from state w. */
  ghost predicate Continues(w: World, labels: seq<Label>, states: seq<World>) {
    && |states| == |labels| + 1
    && states[0] == w
    && forall k :: 0 <= k < |labels| ==> Enabled(states[k], labels[k]) && states[k + 1] == Step(states[k], labels[k])
  }

  ghost predicate IsRun(labels: seq<Label>, states: seq<World>) {
    Continues(EMPTY, labels, states)
  }

  // ---- The invariant ----

  predicate KeysMatch(ps: map<nat, Purchase>) {
    forall id :: id in ps ==> ps[id].id == id && id > 0
  }

  /** The three kinds of event there are. */
  predicate Genuine(ps: map<nat, Purchase>, e: Event) {
    || e.kind.PurchaseCreated?
    || (NumberAt(e.payload, PurchaseId) in ps && e == RequestEvent(ps[NumberAt(e.payload, PurchaseId)]))
    || (NumberAt(e.payload, Id) in ps && ps[NumberAt(e.payload, Id)].status.Confirmed?
        && e == RowEvent(ps[NumberAt(e.payload, Id)]))
  }

  predicate AllGenuine(ps: map<nat, Purchase>, es: seq<Event>) {
    forall i :: 0 <= i < |es| ==> Genuine(ps, es[i])
  }

  /** A settlement is for a confirmed purchase and for exactly the commission stored with it. */
  predicate BookedRight(ps: map<nat, Purchase>, row: S.Settlement) {
    && row.purchase in ps
    && ps[row.purchase].status.Confirmed?
    && row.partner == ps[row.purchase].partner
    && row.debtor == S.Bank
    && row.amount == ps[row.purchase].cpa > 0
  }

  predicate AllBookedRight(ps: map<nat, Purchase>, rows: seq<S.Settlement>) {
    forall i :: 0 <= i < |rows| ==> BookedRight(ps, rows[i])
  }

  /** How often the confirmed row was republished or waits to be. */
  function Copies(w: World, p: Purchase): nat {
    multiset(w.topic)[RowEvent(p)] + multiset(w.outbox)[RowEvent(p)]
  }

  ghost predicate RepublishedOnce(w: World) {
    forall id :: id in w.purchases && w.purchases[id].status.Confirmed? ==> Copies(w, w.purchases[id]) <= 1
  }

  ghost predicate Inv(w: World) {
    && KeysMatch(w.purchases)
    && AllGenuine(w.purchases, w.topic)
    && AllGenuine(w.purchases, w.outbox)
    && AllBookedRight(w.purchases, w.db.settlements)
    && RepublishedOnce(w)
    && S.DbInv(w.db)
  }

  // ---- Decoding ----

  /** The republished row has no "purchase_id", so the promo worker reads id 0 and leaves it alone. */
  lemma RowIsSilentForPromo(w: World, p: Purchase)
    requires KeysMatch(w.purchases)
    ensures PromoHandle(w, RowEvent(p)) == w
  {
    assert PurchaseId !in RowPayload(p);
  }

  /** The API's request has no status, so the settlement worker leaves it alone. */
  lemma RequestIsSilentForCfa(w: World, p: Purchase)
    ensures CfaHandle(w, RequestEvent(p)) == w
  {
    assert Status !in RequestPayload(p);
  }

  lemma RowsDecode(p: Purchase)
    ensures NumberAt(RowPayload(p), Id) == p.id && NumberAt(RowPayload(p), PartnerId) == p.partner
    ensures MoneyAt(RowPayload(p), CpaAmount) == p.cpa && (SaysConfirmed(RowPayload(p)) <==> p.status.Confirmed?)
    ensures PurchaseId !in RowPayload(p)
  {
  }

  lemma RequestsDecode(p: Purchase)
    ensures NumberAt(RequestPayload(p), PurchaseId) == p.id && NumberAt(RequestPayload(p), PartnerId) == p.partner
    ensures MoneyAt(RequestPayload(p), Amount) == p.amount
    ensures Status !in RequestPayload(p) && Id !in RequestPayload(p)
  {
  }

  /** What is not in the payload decodes to nothing. */
  lemma MissingKeys(m: Payload, k: Key)
    requires k !in m
    ensures NumberAt(m, k) == 0 && MoneyAt(m, k) == 0
  {
  }

  /** What the API, an administrator and the bank's own steps do; none of them touches anything else. */
  lemma DirectSteps(w: World, id: nat, partner: nat, percent: int, row: nat)
    ensures Step(w, SetPercent(partner, percent)) == w.(percents := w.percents[partner := percent])
    ensures id in w.purchases ==>
              Step(w, Request(id)) == w.(topic := w.topic + [RequestEvent(w.purchases[id])])
    ensures id in w.purchases && w.purchases[id].status == Pending ==>
              Step(w, Cancel(id))
              == w.(purchases := w.purchases[id := w.purchases[id].(status := Cancelled)])
    ensures row < |w.db.settlements| && w.db.settlements[row].status == S.Created ==>
              Step(w, ConfirmSettlement(row))
              == w.(db := w.db.(settlements :=
                      w.db.settlements[row := w.db.settlements[row].(status := S.Confirmed)]))
    ensures partner in w.db.balances ==>
              var w', b := Step(w, Reconcile(partner)), w.db.balances[partner];
              && w' == w.(db := w'.db) && w'.db.balances == w.db.balances[partner := S.Balance(0, 0)]
              && w'.db.recs == w.db.recs + [S.Reconciliation(partner, b.bankOwes - b.partnerOwes)]
              && |w'.db.settlements| == |w.db.settlements|
              && forall i :: 0 <= i < |w.db.settlements| ==>
                   var x := w.db.settlements[i];
                   w'.db.settlements[i] == if x.partner == partner then x.(status := S.Settled) else x
  {
    hide RequestPayload;
  }

  /** Different rows are different events. */
  lemma RowEventsDiffer(p: Purchase, q: Purchase)
    requires p.id != q.id
    ensures RowEvent(p) != RowEvent(q)
  {
    RowsDecode(p);
    RowsDecode(q);
  }

  lemma RequestsAreNotRows(p: Purchase, q: Purchase)
    ensures RequestEvent(p) != RowEvent(q)
  {
    RowsDecode(q);
    RequestsDecode(p);
    assert PurchaseId in RequestPayload(p);
  }

  // ---- What a change of the purchase table keeps ----

  /** The table grew, or pending rows were decided. */
  ghost predicate Decides(ps: map<nat, Purchase>, ps': map<nat, Purchase>) {
    forall id :: id in ps ==>
      && id in ps'
      && (!ps[id].status.Pending? ==> ps'[id] == ps[id])
      && ps'[id] == ps[id].(status := ps'[id].status, cpa := ps'[id].cpa)
  }

  lemma GenuineStays(ps: map<nat, Purchase>, ps': map<nat, Purchase>, es: seq<Event>)
    requires AllGenuine(ps, es) && Decides(ps, ps')
    ensures AllGenuine(ps', es)
  {
    forall i | 0 <= i < |es|
      ensures Genuine(ps', es[i])
    {
      hide RowPayload;
      assert Genuine(ps, es[i]);
      var id := NumberAt(es[i].payload, PurchaseId);
      if id in ps {
        assert RequestPayload(ps'[id]) == RequestPayload(ps[id]);
      }
    }
  }

  lemma BookedRightStays(ps: map<nat, Purchase>, ps': map<nat, Purchase>, rows: seq<S.Settlement>)
    requires AllBookedRight(ps, rows) && Decides(ps, ps')
    ensures AllBookedRight(ps', rows)
  {
    forall i | 0 <= i < |rows|
      ensures BookedRight(ps', rows[i])
    {
      assert BookedRight(ps, rows[i]);
    }
  }

  /** A row that is not confirmed has never been republished. */
  lemma OnlyConfirmedIsRepublished(w: World, id: nat, p: Purchase)
    requires Inv(w) && id in w.purchases && !w.purchases[id].status.Confirmed? && p.id == id
    ensures Copies(w, p) == 0
  {
    hide S.DbInv, RepublishedOnce, AllBookedRight;
    forall i | 0 <= i < |w.topic|
      ensures w.topic[i] != RowEvent(p)
    {
      NotGenuine(w.purchases, id, p, w.topic[i]);
    }
    forall i | 0 <= i < |w.outbox|
      ensures w.outbox[i] != RowEvent(p)
    {
      NotGenuine(w.purchases, id, p, w.outbox[i]);
    }
  }

  lemma NotGenuine(ps: map<nat, Purchase>, id: nat, p: Purchase, e: Event)
    requires KeysMatch(ps) && Genuine(ps, e) && p.id == id && (id in ps ==> !ps[id].status.Confirmed?)
    ensures e != RowEvent(p)
  {
    RowsDecode(p);
  }

  // ---- Every step keeps the invariant ----

  lemma CreateInv(w: World, p: Purchase)
    requires Inv(w) && Enabled(w, Create(p))
    ensures Inv(Step(w, Create(p)))
  {
    hide S.DbInv, Genuine, BookedRight, RowPayload;
    var w' := Step(w, Create(p));
    var e := Event(PurchaseCreated, RowPayload(p));
    assert Genuine(w'.purchases, e) by { CreatedIsGenuine(w'.purchases, e); }
    GenuineStays(w.purchases, w'.purchases, w.topic);
    GenuineStays(w.purchases, w'.purchases, w.outbox);
    BookedRightStays(w.purchases, w'.purchases, w.db.settlements);
  }

  lemma CreatedIsGenuine(ps: map<nat, Purchase>, e: Event)
    requires e.kind.PurchaseCreated?
    ensures Genuine(ps, e)
  {
  }

  lemma RequestInv(w: World, id: nat)
    requires Inv(w) && Enabled(w, Request(id))
    ensures Inv(Step(w, Request(id)))
  {
    hide S.DbInv, BookedRight, RowPayload, RequestPayload;
    var w', e := Step(w, Request(id)), RequestEvent(w.purchases[id]);
    RequestsDecode(w.purchases[id]);
    assert Genuine(w.purchases, e);
    hide Genuine;
    forall k | k in w.purchases && w.purchases[k].status.Confirmed?
      ensures Copies(w', w'.purchases[k]) <= 1
    {
      RequestsAreNotRows(w.purchases[id], w.purchases[k]);
      assert Copies(w, w.purchases[k]) <= 1;
    }
  }

  lemma CancelInv(w: World, id: nat)
    requires Inv(w) && Enabled(w, Cancel(id))
    ensures Inv(Step(w, Cancel(id)))
  {
    hide S.DbInv, Genuine, BookedRight, RowPayload;
    var w' := Step(w, Cancel(id));
    GenuineStays(w.purchases, w'.purchases, w.topic);
    GenuineStays(w.purchases, w'.purchases, w.outbox);
    BookedRightStays(w.purchases, w'.purchases, w.db.settlements);
  }

  lemma PublishInv(w: World)
    requires Inv(w) && w.outbox != []
    ensures Inv(Step(w, Publish)) && Inv(Step(w, LosePublish))
  {
    hide S.DbInv, Genuine, BookedRight, RowPayload;
    assert w.outbox == [w.outbox[0]] + w.outbox[1..];
    assert multiset(w.outbox) == multiset{w.outbox[0]} + multiset(w.outbox[1..]);
  }

  lemma PromoInv(w: World, e: nat)
    requires Inv(w) && Enabled(w, DeliverToPromo(e))
    ensures Inv(Step(w, DeliverToPromo(e)))
  {
    var w', m := Step(w, DeliverToPromo(e)), w.topic[e].payload;
    if w' != w {
      PromoConfirms(w, e);
      var id := NumberAt(m, PurchaseId);
      var row := w'.purchases[id];
      hide S.DbInv, BookedRight, RowPayload, Step, PromoHandle, OnPurchaseConfirmed, NumberAt;
      OnlyConfirmedIsRepublished(w, id, row);
      RowsDecodeAt(w'.purchases, id);
      hide Genuine;
      GenuineStays(w.purchases, w'.purchases, w.topic);
      GenuineStays(w.purchases, w'.purchases, w.outbox);
      BookedRightStays(w.purchases, w'.purchases, w.db.settlements);
      forall k | k in w'.purchases && w'.purchases[k].status.Confirmed?
        ensures Copies(w', w'.purchases[k]) <= 1
      {
        if k != id {
          RowEventsDiffer(w'.purchases[k], row);
          assert w'.purchases[k] == w.purchases[k];
          assert Copies(w, w.purchases[k]) <= 1;
        }
      }
    }
  }

  lemma RowsDecodeAt(ps: map<nat, Purchase>, id: nat)
    requires id in ps && ps[id].id == id && ps[id].status.Confirmed?
    ensures Genuine(ps, RowEvent(ps[id]))
  {
    RowsDecode(ps[id]);
  }

  /**
   * What a non-silent handling does: it takes a pending purchase, confirms it at the partner's current
   * percentage of the purchase's own amount, and queues its row. It answers a request, never a row.
   */
  lemma PromoConfirms(w: World, e: nat)
    requires Inv(w) && e < |w.topic| && PromoHandle(w, w.topic[e]) != w
    ensures var id := NumberAt(w.topic[e].payload, PurchaseId);
            && IsPending(w, id)
            && w.topic[e] == RequestEvent(w.purchases[id])
            && w.purchases[id].partner in w.percents
            && var row := w.purchases[id].(
                 status := Confirmed, cpa := w.purchases[id].amount * w.percents[w.purchases[id].partner]);
               PromoHandle(w, w.topic[e])
               == w.(purchases := w.purchases[id := row], outbox := w.outbox + [RowEvent(row)])
  {
    hide S.DbInv, RepublishedOnce, AllBookedRight, RequestPayload, RowPayload;
    var id := NumberAt(w.topic[e].payload, PurchaseId);
    assert Genuine(w.purchases, w.topic[e]);
    RequestsDecode(w.purchases[id]);
    var k := NumberAt(w.topic[e].payload, Id);
    if k in w.purchases && w.topic[e] == RowEvent(w.purchases[k]) {
      RowsDecode(w.purchases[k]);
      assert false;
    }
  }

  /** A delivery that books something is of a confirmed row. */
  lemma CfaBooksRows(w: World, e: Event)
    requires KeysMatch(w.purchases) && Genuine(w.purchases, e) && CfaHandle(w, e) != w
    ensures BookedRight(w.purchases, Booking(e.payload)) && !S.PurchaseKnown(w.db, Booking(e.payload).purchase)
  {
    hide S.PurchaseKnown, S.AfterCreate, RowPayload, RequestPayload;
    var k := NumberAt(e.payload, PurchaseId);
    if k in w.purchases && e == RequestEvent(w.purchases[k]) {
      RequestIsSilentForCfa(w, w.purchases[k]);
      assert false;
    } else {
      RowsDecode(w.purchases[NumberAt(e.payload, Id)]);
    }
  }

  lemma CfaInv(w: World, e: nat)
    requires Inv(w) && Enabled(w, DeliverToCfa(e))
    ensures Inv(Step(w, DeliverToCfa(e)))
  {
    hide S.DbInv, S.PurchaseKnown, S.AfterCreate, RowPayload, Genuine, BookedRight;
    var w', row := Step(w, DeliverToCfa(e)), Booking(w.topic[e].payload);
    if w' != w {
      CfaBooksRows(w, w.topic[e]);
      S.NewSettlementKeepsTables(w.db, row);
      Appended(w.db, row);
    }
  }

  lemma Appended(db: S.Db, row: S.Settlement)
    ensures S.AfterCreate(db, row, db.BalanceOf(row.partner).Plus(row.debtor, row.amount)).settlements
         == db.settlements + [row]
  {
  }

  lemma BookkeepingInv(w: World, l: Label)
    requires Inv(w) && Enabled(w, l) && (l.ConfirmSettlement? || l.Reconcile?)
    ensures Inv(Step(w, l))
  {
    hide S.DbInv, Genuine, RowPayload, S.OpenRows;
    var w' := Step(w, l);
    forall i | 0 <= i < |w'.db.settlements|
      ensures BookedRight(w'.purchases, w'.db.settlements[i])
    {
      assert BookedRight(w.purchases, w.db.settlements[i]);
    }
    match l
    case ConfirmSettlement(i) => S.ConfirmKeepsTables(w.db, i);
    case Reconcile(p) => S.NewReconciliationKeepsTables(w.db, p);
  }

  lemma StepInv(w: World, l: Label)
    requires Inv(w) && Enabled(w, l)
    ensures Inv(Step(w, l))
  {
    hide Inv, Step;
    match l
    case Create(p) => CreateInv(w, p);
    case SetPercent(_, _) => SetPercentInv(w, l);
    case Request(id) => RequestInv(w, id);
    case Cancel(id) => CancelInv(w, id);
    case DeliverToPromo(e) => PromoInv(w, e);
    case Publish => PublishInv(w);
    case LosePublish => PublishInv(w);
    case DeliverToCfa(e) => CfaInv(w, e);
    case _ => BookkeepingInv(w, l);
  }

  lemma SetPercentInv(w: World, l: Label)
    requires Inv(w) && l.SetPercent?
    ensures Inv(Step(w, l))
  {
    hide S.DbInv, Genuine, BookedRight, RowPayload;
  }

  lemma {:induction false} RunInv(labels: seq<Label>, states: seq<World>, k: nat)
    requires IsRun(labels, states) && k < |states|
    ensures Inv(states[k])
  {
    hide Inv, Enabled, Step;
    if k == 0 {
      S.InitInv();
      EmptyInv();
    } else {
      RunInv(labels, states, k - 1);
      StepInv(states[k - 1], labels[k - 1]);
    }
  }

  lemma EmptyInv()
    ensures Inv(EMPTY)
  {
    hide S.DbInv;
    S.InitInv();
  }

  /**
   * In every run, whatever is delivered how often and in whatever order: a purchase has at most one
   * settlement, and it has one only if it was confirmed, owed by the bank to the purchase's own
   * partner, for exactly the commission stored with it. Its row is republished at most once.
   */
  lemma EveryRunBooksOnce(labels: seq<Label>, states: seq<World>, k: nat)
    requires IsRun(labels, states) && k < |states|
    ensures S.OnePerPurchase(states[k].db)
    ensures AllBookedRight(states[k].purchases, states[k].db.settlements)
    ensures RepublishedOnce(states[k])
  {
    RunInv(labels, states, k);
  }

  // ---- Delivery is enough ----

  /** One delivery of a confirmed row with a commission leaves the purchase settled. */
  lemma DeliveredIsBooked(w: World, e: nat, id: nat)
    requires Inv(w) && e < |w.topic| && id in w.purchases && w.topic[e] == RowEvent(w.purchases[id])
    requires w.purchases[id].status.Confirmed? && w.purchases[id].cpa > 0
    ensures S.PurchaseKnown(Step(w, DeliverToCfa(e)).db, id)
  {
    hide S.DbInv, RowPayload;
    RowsDecode(w.purchases[id]);
    var row := Booking(w.topic[e].payload);
    Appended(w.db, row);
    if !S.PurchaseKnown(w.db, id) {
      var ss := Step(w, DeliverToCfa(e)).db.settlements;
      assert ss[|ss| - 1].purchase == id;
    }
  }

  /** Delivering an event again changes nothing: the handlers are idempotent. */
  lemma RedeliveryIsSilent(w: World, e: nat)
    requires Inv(w) && e < |w.topic|
    ensures var w' := Step(w, DeliverToPromo(e)); PromoHandle(w', w.topic[e]) == w'
    ensures var w' := Step(w, DeliverToCfa(e)); CfaHandle(w', w.topic[e]) == w'
  {
    hide Inv, RowPayload, RequestPayload;
    var m := w.topic[e].payload;
    var w' := Step(w, DeliverToCfa(e));
    if w' != w {
      Appended(w.db, Booking(m));
      assert w'.db.settlements[|w.db.settlements|].purchase == NumberAt(m, Id);
    }
  }

  // ---- What is queued and what is booked comes from confirmed rows ----

  predicate ConfirmedRow(ps: map<nat, Purchase>, e: Event) {
    var id := NumberAt(e.payload, Id);
    id in ps && ps[id].status.Confirmed? && e == RowEvent(ps[id])
  }

  predicate AllConfirmedRows(ps: map<nat, Purchase>, es: seq<Event>) {
    forall i :: 0 <= i < |es| ==> ConfirmedRow(ps, es[i])
  }

  predicate AllPublished(ps: map<nat, Purchase>, topic: seq<Event>, rows: seq<S.Settlement>) {
    forall i :: 0 <= i < |rows| ==> rows[i].purchase in ps && RowEvent(ps[rows[i].purchase]) in topic
  }

  /** The outbox holds confirmed rows only, and nothing is booked that was not republished. */
  ghost predicate Traced(w: World) {
    && AllConfirmedRows(w.purchases, w.outbox)
    && AllPublished(w.purchases, w.topic, w.db.settlements)
  }

  lemma TracedStays(w: World, w': World)
    requires Traced(w) && AllBookedRight(w.purchases, w.db.settlements) && Decides(w.purchases, w'.purchases)
    requires w.topic <= w'.topic && w'.outbox == w.outbox && w'.db == w.db
    ensures Traced(w')
  {
    hide RowPayload;
    forall i | 0 <= i < |w.outbox|
      ensures ConfirmedRow(w'.purchases, w.outbox[i])
    {
      assert ConfirmedRow(w.purchases, w.outbox[i]);
    }
    forall i | 0 <= i < |w.db.settlements|
      ensures w.db.settlements[i].purchase in w'.purchases
      ensures RowEvent(w'.purchases[w.db.settlements[i].purchase]) in w'.topic
    {
      assert BookedRight(w.purchases, w.db.settlements[i]);
    }
  }

  lemma PublishTraced(w: World)
    requires Traced(w) && w.outbox != []
    ensures Traced(Step(w, Publish)) && Traced(Step(w, LosePublish))
  {
    hide RowPayload, ConfirmedRow;
  }

  lemma PromoTraced(w: World, e: nat)
    requires Inv(w) && Traced(w) && e < |w.topic|
    ensures Traced(Step(w, DeliverToPromo(e)))
  {
    var w', id := Step(w, DeliverToPromo(e)), NumberAt(w.topic[e].payload, PurchaseId);
    if w' != w {
      PromoConfirms(w, e);
      hide S.DbInv, RowPayload, PromoHandle, RepublishedOnce, Genuine, BookedRight;
      TracedStays(w, w'.(outbox := w.outbox));
      RowIsConfirmed(w'.purchases, id);
      hide ConfirmedRow;
    }
  }

  lemma RowIsConfirmed(ps: map<nat, Purchase>, id: nat)
    requires id in ps && ps[id].id == id && ps[id].status.Confirmed?
    ensures ConfirmedRow(ps, RowEvent(ps[id]))
  {
    RowsDecode(ps[id]);
  }

  lemma CfaTraced(w: World, e: nat)
    requires Inv(w) && Traced(w) && e < |w.topic|
    ensures Traced(Step(w, DeliverToCfa(e)))
  {
    var w', row := Step(w, DeliverToCfa(e)), Booking(w.topic[e].payload);
    if w' != w {
      hide S.DbInv, RowPayload, RepublishedOnce, S.PurchaseKnown, S.AfterCreate, ConfirmedRow;
      assert Genuine(w.purchases, w.topic[e]);
      BookedFromRow(w, w.topic[e]);
      Appended(w.db, row);
      hide Genuine;
    }
  }

  lemma BookkeepingTraced(w: World, l: Label)
    requires Inv(w) && Traced(w) && Enabled(w, l) && (l.ConfirmSettlement? || l.Reconcile?)
    ensures Traced(Step(w, l))
  {
    hide S.DbInv, RowPayload, RepublishedOnce, ConfirmedRow, Genuine, BookedRight;
    var ss := Step(w, l).db.settlements;
    forall i | 0 <= i < |ss|
      ensures ss[i].purchase == w.db.settlements[i].purchase
    {
    }
  }

  lemma StepTraced(w: World, l: Label)
    requires Inv(w) && Traced(w) && Enabled(w, l)
    ensures Traced(Step(w, l))
  {
    hide Traced, S.DbInv, RowPayload, RequestPayload, RepublishedOnce, AllGenuine;
    match l
    case DeliverToPromo(e) => PromoTraced(w, e);
    case Publish => PublishTraced(w);
    case LosePublish => PublishTraced(w);
    case DeliverToCfa(e) => CfaTraced(w, e);
    case ConfirmSettlement(_) => BookkeepingTraced(w, l);
    case Reconcile(_) => BookkeepingTraced(w, l);
    case _ => TracedStays(w, Step(w, l));
  }

  // ---- Lost and settleable purchases ----

  ghost predicate Reachable(w: World) {
    exists labels: seq<Label>, states: seq<World> :: IsRun(labels, states) && states[|labels|] == w
  }

  lemma {:induction false} ContinuingKeeps(w: World, labels: seq<Label>, states: seq<World>, k: nat)
    requires Inv(w) && Traced(w) && Continues(w, labels, states) && k <= |labels|
    ensures Inv(states[k]) && Traced(states[k])
  {
    hide Inv, Traced, Enabled, Step;
    if k > 0 {
      ContinuingKeeps(w, labels, states, k - 1);
      StepInv(states[k - 1], labels[k - 1]);
      StepTraced(states[k - 1], labels[k - 1]);
    }
  }

  lemma ReachableInv(w: World)
    requires Reachable(w)
    ensures Inv(w) && Traced(w)
  {
    var labels: seq<Label>, states: seq<World> :| IsRun(labels, states) && states[|labels|] == w;
    EmptyInv();
    ContinuingKeeps(EMPTY, labels, states, |labels|);
  }

  /** Confirmed, without a settlement, and with no event left that could still bring one. */
  ghost predicate Lost(w: World, id: nat) {
    && id in w.purchases
    && w.purchases[id].status.Confirmed?
    && Copies(w, w.purchases[id]) == 0
    && !S.PurchaseKnown(w.db, id)
  }

  /** A failed publish loses the settlement of the purchase that was just confirmed. */
  lemma LosePublishLoses(w: World)
    requires Reachable(w) && w.outbox != []
    ensures Lost(Step(w, LosePublish), NumberAt(w.outbox[0].payload, Id))
  {
    ReachableInv(w);
    hide S.DbInv, RowPayload, Reachable;
    assert ConfirmedRow(w.purchases, w.outbox[0]);
    var id := NumberAt(w.outbox[0].payload, Id);
    var e := w.outbox[0];
    assert Copies(w, w.purchases[id]) <= 1;
    assert w.outbox == [e] + w.outbox[1..];
    assert multiset(w.outbox) == multiset{e} + multiset(w.outbox[1..]);
    assert multiset(w.topic)[e] == 0 && multiset(w.outbox[1..])[e] == 0;
    assert e !in w.topic;
    forall i | 0 <= i < |w.db.settlements|
      ensures w.db.settlements[i].purchase != id
    {
    }
  }

  lemma NewEventsKeepLost(w: World, l: Label, id: nat)
    requires Inv(w) && Enabled(w, l) && Lost(w, id)
    requires l.Create? || l.SetPercent? || l.Request? || l.Cancel?
    ensures Lost(Step(w, l), id)
  {
    hide S.DbInv, S.PurchaseKnown, RowPayload, RequestPayload, AllBookedRight, RepublishedOnce, Genuine;
    match l
    case Create(p) => RowsDecode(p); RowsDecode(w.purchases[id]);
    case Request(k) => RequestsAreNotRows(w.purchases[k], w.purchases[id]);
    case _ =>
  }

  lemma PromoKeepsLost(w: World, e: nat, id: nat)
    requires Inv(w) && e < |w.topic| && Lost(w, id)
    ensures Lost(Step(w, DeliverToPromo(e)), id)
  {
    hide S.DbInv, S.PurchaseKnown, RowPayload, RequestPayload, AllBookedRight, RepublishedOnce, Genuine;
    if PromoHandle(w, w.topic[e]) != w {
      PromoConfirms(w, e);
      var k := NumberAt(w.topic[e].payload, PurchaseId);
      hide PromoHandle;
      RowEventsDiffer(Step(w, DeliverToPromo(e)).purchases[k], w.purchases[id]);
    }
  }

  lemma PublishKeepsLost(w: World, id: nat)
    requires w.outbox != [] && Lost(w, id)
    ensures Lost(Step(w, Publish), id) && Lost(Step(w, LosePublish), id)
  {
    hide S.PurchaseKnown, RowPayload;
    assert w.outbox == [w.outbox[0]] + w.outbox[1..];
  }

  /** A publish that fails after the confirmation loses the settlement for good, whatever is retried. */
  lemma LostStaysLost(w: World, l: Label, id: nat)
    requires Inv(w) && Enabled(w, l) && Lost(w, id)
    ensures Lost(Step(w, l), id)
  {
    hide Inv, S.PurchaseKnown, RowPayload, RequestPayload, PromoHandle, CfaHandle;
    match l
    case DeliverToPromo(e) => PromoKeepsLost(w, e, id);
    case Publish => PublishKeepsLost(w, id);
    case LosePublish => PublishKeepsLost(w, id);
    case DeliverToCfa(e) => CfaKeepsLost(w, e, id);
    case ConfirmSettlement(i) => KeysStay(w.db, S.AfterConfirm(w.db, i), id);
    case Reconcile(p) => KeysStay(w.db, Step(w, l).db, id);
    case _ => NewEventsKeepLost(w, l, id);
  }

  /** However the run goes on. */
  lemma {:induction false} LostForGood(w: World, labels: seq<Label>, states: seq<World>, k: nat, id: nat)
    requires Reachable(w) && Lost(w, id) && Continues(w, labels, states) && k <= |labels|
    ensures Lost(states[k], id)
  {
    hide Reachable, Inv, Traced, Enabled, Step, Lost;
    if k > 0 {
      LostForGood(w, labels, states, k - 1, id);
      ReachableInv(w);
      ContinuingKeeps(w, labels, states, k - 1);
      LostStaysLost(states[k - 1], labels[k - 1], id);
    }
  }

  lemma KeysStay(db: S.Db, db': S.Db, id: nat)
    requires |db'.settlements| == |db.settlements| && !S.PurchaseKnown(db, id)
    requires forall i :: 0 <= i < |db.settlements| ==> db'.settlements[i].purchase == db.settlements[i].purchase
    ensures !S.PurchaseKnown(db', id)
  {
  }

  lemma CfaKeepsLost(w: World, e: nat, id: nat)
    requires Inv(w) && e < |w.topic| && Lost(w, id)
    ensures Lost(Step(w, DeliverToCfa(e)), id)
  {
    hide S.DbInv, RowPayload, RequestPayload, AllBookedRight, RepublishedOnce, BookedRight;
    var w', row := Step(w, DeliverToCfa(e)), Booking(w.topic[e].payload);
    if w' != w {
      CfaBooksRows(w, w.topic[e]);
      Appended(w.db, row);
      if row.purchase == id {
        BookedFromRow(w, w.topic[e]);
        assert false;
      }
      forall i | 0 <= i < |w'.db.settlements|
        ensures w'.db.settlements[i].purchase != id
      {
      }
    }
  }

  lemma BookedFromRow(w: World, e: Event)
    requires KeysMatch(w.purchases) && Genuine(w.purchases, e) && CfaHandle(w, e) != w
    ensures Booking(e.payload).purchase in w.purchases && e == RowEvent(w.purchases[Booking(e.payload).purchase])
  {
    hide S.PurchaseKnown, S.AfterCreate, RowPayload, RequestPayload;
    var k := NumberAt(e.payload, PurchaseId);
    if k in w.purchases && e == RequestEvent(w.purchases[k]) {
      RequestIsSilentForCfa(w, w.purchases[k]);
      assert false;
    }
  }

  /** Some continuation settles the purchase. */
  ghost predicate CanBeSettled(w: World, id: nat) {
    exists labels: seq<Label>, states: seq<World> ::
      Continues(w, labels, states) && S.PurchaseKnown(states[|labels|].db, id)
  }

  lemma ThenSettled(w: World, l: Label, id: nat)
    requires Enabled(w, l) && CanBeSettled(Step(w, l), id)
    ensures CanBeSettled(w, id)
  {
    hide Enabled, Step, S.PurchaseKnown;
    var labels: seq<Label>, states: seq<World> :|
      Continues(Step(w, l), labels, states) && S.PurchaseKnown(states[|labels|].db, id);
    assert Continues(w, [l] + labels, [w] + states);
    assert ([w] + states)[|[l] + labels|] == states[|labels|];
  }

  /** A queued row settles its purchase once everything before it is published and it is delivered. */
  lemma {:induction false} QueuedCanBeSettled(w: World, i: nat, id: nat)
    requires Inv(w) && id in w.purchases && w.purchases[id].status.Confirmed? && w.purchases[id].cpa > 0
    requires i < |w.outbox| && w.outbox[i] == RowEvent(w.purchases[id])
    ensures CanBeSettled(w, id)
    decreases i
  {
    hide Inv, RowPayload, CanBeSettled;
    var w' := Step(w, Publish);
    PublishInv(w);
    if i == 0 {
      PublishedCanBeSettled(w', |w.topic|, id);
    } else {
      QueuedCanBeSettled(w', i - 1, id);
    }
    ThenSettled(w, Publish, id);
  }

  lemma PublishedCanBeSettled(w: World, e: nat, id: nat)
    requires Inv(w) && id in w.purchases && w.purchases[id].status.Confirmed? && w.purchases[id].cpa > 0
    requires e < |w.topic| && w.topic[e] == RowEvent(w.purchases[id])
    ensures CanBeSettled(w, id)
  {
    hide Inv, RowPayload, Step;
    DeliveredIsBooked(w, e, id);
    var w' := Step(w, DeliverToCfa(e));
    assert Continues(w', [], [w']);
    ThenSettled(w, DeliverToCfa(e), id);
  }

  lemma ConfirmedStays(w: World, l: Label, id: nat)
    requires Inv(w) && Enabled(w, l) && id in w.purchases && w.purchases[id].status.Confirmed?
    ensures id in Step(w, l).purchases && Step(w, l).purchases[id] == w.purchases[id]
  {
    hide S.DbInv, RowPayload, RequestPayload;
    if l.DeliverToPromo? && PromoHandle(w, w.topic[l.e]) != w {
      PromoConfirms(w, l.e);
    }
  }

  lemma {:induction false} ConfirmedForGood(w: World, labels: seq<Label>, states: seq<World>, k: nat, id: nat)
    requires Inv(w) && Traced(w) && Continues(w, labels, states) && k <= |labels|
    requires id in w.purchases && w.purchases[id].status.Confirmed?
    ensures id in states[k].purchases && states[k].purchases[id] == w.purchases[id]
  {
    hide Inv, Traced, Enabled, Step;
    if k > 0 {
      ConfirmedForGood(w, labels, states, k - 1, id);
      ContinuingKeeps(w, labels, states, k - 1);
      ConfirmedStays(states[k - 1], labels[k - 1], id);
    }
  }

  lemma SettledNeedsCopy(w: World, labels: seq<Label>, states: seq<World>, id: nat)
    requires Reachable(w) && id in w.purchases && w.purchases[id].status.Confirmed?
    requires Continues(w, labels, states) && S.PurchaseKnown(states[|labels|].db, id)
    ensures w.purchases[id].cpa > 0 && Copies(w, w.purchases[id]) > 0
  {
    hide Reachable, Enabled, Step, RowPayload, S.DbInv;
    ReachableInv(w);
    ContinuingKeeps(w, labels, states, |labels|);
    ConfirmedForGood(w, labels, states, |labels|, id);
    var last := states[|labels|];
    var i :| 0 <= i < |last.db.settlements| && last.db.settlements[i].purchase == id;
    assert BookedRight(last.purchases, last.db.settlements[i]);
    if Copies(w, w.purchases[id]) == 0 {
      assert Lost(w, id);
      LostForGood(w, labels, states, |labels|, id);
      assert false;
    }
  }

  /**
   * Exactly which confirmed purchases can still be, or already are, settled: those with a commission whose
   * row was republished or still waits to be.
   */
  lemma SettleableExactly(w: World, id: nat)
    requires Reachable(w) && id in w.purchases && w.purchases[id].status.Confirmed?
    ensures CanBeSettled(w, id) <==> w.purchases[id].cpa > 0 && Copies(w, w.purchases[id]) > 0
  {
    if CanBeSettled(w, id) {
      var labels: seq<Label>, states: seq<World> :|
        Continues(w, labels, states) && S.PurchaseKnown(states[|labels|].db, id);
      SettledNeedsCopy(w, labels, states, id);
    }
    if w.purchases[id].cpa > 0 && Copies(w, w.purchases[id]) > 0 {
      hide RowPayload, CanBeSettled;
      ReachableInv(w);
      var row := RowEvent(w.purchases[id]);
      if row in w.topic {
        var e: nat :| e < |w.topic| && w.topic[e] == row;
        PublishedCanBeSettled(w, e, id);
      } else {
        assert row in w.outbox;
        var i: nat :| i < |w.outbox| && w.outbox[i] == row;
        QueuedCanBeSettled(w, i, id);
      }
    }
  }

  /** A run that loses a settlement: any purchase that is requested and confirmed, and then not published. */
  function LosingRun(p: Purchase, percent: int): seq<Label> {
    [Create(p), SetPercent(p.partner, percent), Request(p.id), DeliverToPromo(1), LosePublish]
  }

  lemma RequestIsConfirmed(w: World, e: nat, p: Purchase)
    requires p.id in w.purchases && w.purchases[p.id] == p && p.status.Pending? && p.partner in w.percents
    requires e < |w.topic| && w.topic[e] == RequestEvent(p)
    ensures
      var row := p.(status := Confirmed, cpa := p.amount * w.percents[p.partner]);
      Step(w, DeliverToPromo(e)) == w.(purchases := w.purchases[p.id := row], outbox := w.outbox + [RowEvent(row)])
  {
    RequestsDecode(p);
    hide RequestPayload, RowPayload;
  }

  /** After its first four steps the purchase is confirmed and its row is queued. */
  lemma LosingRunConfirms(p: Purchase, percent: int) returns (states: seq<World>)
    requires p.id > 0 && p.status.Pending? && p.cpa == 0
    ensures IsRun(LosingRun(p, percent)[..4], states)
    ensures states[4].outbox == [RowEvent(p.(status := Confirmed, cpa := p.amount * percent))]
  {
    hide RowPayload, RequestPayload, S.AfterReconcile, S.AfterConfirm, S.AfterCreate, PromoHandle, CfaHandle;
    var w1 := Step(EMPTY, Create(p));
    var w2 := Step(w1, SetPercent(p.partner, percent));
    var w3 := Step(w2, Request(p.id));
    RequestIsConfirmed(w3, 1, p);
    var w4 := Step(w3, DeliverToPromo(1));
    states := [EMPTY, w1, w2, w3, w4];
  }

  lemma LosingRunLoses(p: Purchase, percent: int)
    requires p.id > 0 && p.status.Pending? && p.cpa == 0
    ensures exists states ::
      IsRun(LosingRun(p, percent), states) && Lost(states[5], p.id) && !CanBeSettled(states[5], p.id)
  {
    var labels := LosingRun(p, percent);
    var states := LosingRunConfirms(p, percent);
    hide RowPayload, Lost, CanBeSettled, Step, Enabled;
    var w := states[4];
    var w' := Step(w, LosePublish);
    assert IsRun(labels, states + [w']) by {
      assert states + [w'] == states[..5] + [w'] && labels[4] == LosePublish;
      forall k | 0 <= k < 5
        ensures Enabled((states + [w'])[k], labels[k]) && (states + [w'])[k + 1] == Step((states + [w'])[k], labels[k])
      {
        if k < 4 {
          assert labels[..4][k] == labels[k];
        }
      }
    }
    assert Reachable(w) by { assert IsRun(labels[..4], states) && states[|labels[..4]|] == w; }
    assert Reachable(w') by { assert (states + [w'])[|labels|] == w'; }
    RowsDecode(p.(status := Confirmed, cpa := p.amount * percent));
    LosePublishLoses(w);
    LostCannotBeSettled(w', p.id);
  }

  lemma LostCannotBeSettled(w: World, id: nat)
    requires Reachable(w) && Lost(w, id)
    ensures !CanBeSettled(w, id)
  {
    hide Reachable;
    SettleableExactly(w, id);
  }

  // ---- The feedback loop stops ----

  function PendingIds(ps: map<nat, Purchase>): set<nat> {
    set id | id in ps && ps[id].status.Pending?
  }

  /** A delivery to the promo worker that does anything, and so publishes to its own topic again. */
  ghost predicate Loops(w: World, l: Label) {
    l.DeliverToPromo? && l.e < |w.topic| && PromoHandle(w, w.topic[l.e]) != w
  }

  lemma DecidingUsesUp(ps: map<nat, Purchase>, id: nat, row: Purchase)
    requires id in ps && ps[id].status.Pending? && !row.status.Pending?
    ensures |PendingIds(ps[id := row])| == |PendingIds(ps)| - 1
  {
    assert PendingIds(ps) == PendingIds(ps[id := row]) + {id} && id !in PendingIds(ps[id := row]);
  }

  lemma CreatingAdds(ps: map<nat, Purchase>, id: nat, row: Purchase)
    requires id !in ps && row.status.Pending?
    ensures |PendingIds(ps[id := row])| == |PendingIds(ps)| + 1
  {
    assert PendingIds(ps[id := row]) == PendingIds(ps) + {id} && id !in PendingIds(ps);
  }

  lemma OthersKeepPurchases(w: World, l: Label)
    requires Enabled(w, l) && !Loops(w, l) && !l.Create? && !l.Cancel?
    ensures Step(w, l).purchases == w.purchases
  {
    hide RowPayload, RequestPayload, S.AfterReconcile, S.AfterConfirm, S.AfterCreate, S.PurchaseKnown,
         OnPurchaseConfirmed;
  }

  /** Each such delivery uses up one pending purchase; only a new purchase adds one. */
  lemma LoopUsesUpAPurchase(w: World, l: Label)
    requires Inv(w) && Enabled(w, l)
    ensures Loops(w, l) ==> |PendingIds(Step(w, l).purchases)| == |PendingIds(w.purchases)| - 1
    ensures l.Create? ==> |PendingIds(Step(w, l).purchases)| == |PendingIds(w.purchases)| + 1
    ensures !Loops(w, l) && !l.Create? ==> |PendingIds(Step(w, l).purchases)| <= |PendingIds(w.purchases)|
  {
    if Loops(w, l) {
      PromoConfirms(w, l.e);
      var id := NumberAt(w.topic[l.e].payload, PurchaseId);
      hide Inv, PromoHandle, RowPayload, RequestPayload, PendingIds;
      DecidingUsesUp(w.purchases, id, Step(w, l).purchases[id]);
    } else if l.Create? {
      hide Inv, Loops, RowPayload, PendingIds;
      CreatingAdds(w.purchases, l.p.id, l.p);
    } else if l.Cancel? {
      hide Inv, Loops, RowPayload, PendingIds;
      DecidingUsesUp(w.purchases, l.id, Step(w, l).purchases[l.id]);
    } else {
      hide Inv, Loops, Step, PendingIds;
      OthersKeepPurchases(w, l);
    }
  }

  function CountCreates(labels: seq<Label>): nat {
    if labels == [] then 0
    else CountCreates(labels[..|labels| - 1]) + if labels[|labels| - 1].Create? then 1 else 0
  }

  ghost function CountLoops(labels: seq<Label>, states: seq<World>): nat
    requires |states| == |labels| + 1
  {
    if labels == [] then 0
    else
      var k := |labels| - 1;
      CountLoops(labels[..k], states[..k + 1]) + if Loops(states[k], labels[k]) then 1 else 0
  }

  /**
   * However events are delivered, the promo worker reacts to its own topic at most as often as
   * purchases were created: what is left over is still pending.
   */
  lemma {:induction false} FeedbackStops(labels: seq<Label>, states: seq<World>)
    requires IsRun(labels, states)
    ensures CountLoops(labels, states) + |PendingIds(states[|labels|].purchases)| <= CountCreates(labels)
  {
    hide Inv, Enabled, Step, Loops;
    if labels == [] {
      assert PendingIds(states[0].purchases) == {};
    } else {
      var k := |labels| - 1;
      assert IsRun(labels[..k], states[..k + 1]);
      FeedbackStops(labels[..k], states[..k + 1]);
      RunInv(labels, states, k);
      LoopUsesUpAPurchase(states[k], labels[k]);
    }
  }

  // ---- The workers as they are written ----

  datatype Outcome = Ok | Failed

  class Workers {
    var purchases: map<nat, Purchase>
    var percents: map<nat, int>
    var topic: seq<Event>
    var cfa: S.CfaRepo

    ghost function Now(): World
      reads this, cfa
    {
      World(purchases, percents, topic, [], cfa.Tables())
    }

    constructor ()
      ensures Now() == EMPTY && fresh(cfa)
    {
      purchases, percents, topic := map[], map[], [];
      cfa := new S.CfaRepo();
    }

    /** Confirms the row only while it is pending. */
    method Confirm(id: nat, cpa: int) returns (row: Purchase, found: bool)
      modifies this`purchases
      ensures found == old(IsPending(Now(), id))
      ensures !found ==> purchases == old(purchases)
      ensures found ==>
                && row == old(purchases)[id].(status := Confirmed, cpa := cpa)
                && purchases == old(purchases)[id := row]
    {
      if id in purchases && purchases[id].status.Pending? {
        row := purchases[id].(status := Confirmed, cpa := cpa);
        purchases := purchases[id := row];
        found := true;
      } else {
        row, found := Purchase(0, 0, 0, 0, 0, 0, Pending), false;
      }
    }

    method Cancel(id: nat) returns (found: bool)
      modifies this`purchases
      ensures found == old(IsPending(Now(), id))
      ensures !found ==> purchases == old(purchases)
      ensures found ==> Enabled(old(Now()), Label.Cancel(id)) && Now() == Step(old(Now()), Label.Cancel(id))
      ensures found ==> purchases == old(purchases)[id := old(purchases)[id].(status := Cancelled)]
    {
      found := id in purchases && purchases[id].status.Pending?;
      if found {
        purchases := purchases[id := purchases[id].(status := Cancelled)];
      }
    }

    /** A failed publish leaves the row confirmed and its event unpublished, whatever is retried. */
    method HandlePromo(e: Event, publishes: bool) returns (r: Outcome)
      modifies this`purchases, this`topic
      ensures var w := PromoHandle(old(Now()), e);
              && purchases == w.purchases
              && topic == old(topic) + (if publishes then w.outbox else [])
      ensures r == Failed <==>
                && e.kind == PurchaseConfirmed
                && (NumberAt(e.payload, PartnerId) !in percents
                    || (old(IsPending(Now(), NumberAt(e.payload, PurchaseId))) && !publishes))
    {
      r := Ok;
      if e.kind.PurchaseConfirmed? {
        var id, partner := NumberAt(e.payload, PurchaseId), NumberAt(e.payload, PartnerId);
        if partner !in percents {
          return Failed;
        }
        var cpa := MoneyAt(e.payload, Amount) * percents[partner];
        var row, found := Confirm(id, cpa);
        if found {
          if publishes {
            topic := topic + [RowEvent(row)];
          } else {
            r := Failed;
          }
        }
      }
    }

    method HandleCfa(e: Event)
      requires S.DbInv(cfa.Tables())
      modifies cfa
      ensures Now() == CfaHandle(old(Now()), e)
      ensures S.DbInv(cfa.Tables())
    {
      hide S.DbInv, S.PurchaseKnown;
      if !e.kind.PurchaseConfirmed? {
        return;
      }
      if !SaysConfirmed(e.payload) || MoneyAt(e.payload, CpaAmount) <= 0 {
        return;
      }
      var _ := cfa.CreateSettlement(
        NumberAt(e.payload, Id), NumberAt(e.payload, PartnerId), S.Bank, MoneyAt(e.payload, CpaAmount));
    }
  }
}
