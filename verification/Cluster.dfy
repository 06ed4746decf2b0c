/**
 * The cluster as a distributed system. Any node may take its next step at any time; a message
 * that was sent may arrive at any later time, any number of times or never; a node may give up
 * at any time, and so may the coordinator.
 */
module Cluster {
  import opened Options
  import opened Arithmetic
  import opened Field
  import Radix
  import opened Sharing
  import opened Operations
  import opened Worker
  import opened Lockstep
  import opened Coordinator

  // ---- The round buffer of one node ----

  type Store = map<nat, map<nat, seq<Byte>>>

  function RoundOf(data: Store, round: nat): map<nat, seq<Byte>> {
    if round in data then data[round] else map[]
  }

  function PutIn(data: Store, round: nat, sender: nat, bytes: seq<Byte>): Store {
    var cur: map<nat, seq<Byte>> := RoundOf(data, round) + map[sender := bytes];
    data[round := cur]
  }

  /** One entry changes, and no other. */
  lemma PutChangesOne(data: Store, round: nat, sender: nat, bytes: seq<Byte>)
    ensures
      var data' := PutIn(data, round, sender, bytes);
      && data'.Keys == data.Keys + {round}
      && RoundOf(data', round) == RoundOf(data, round)[sender := bytes]
      && forall r: nat :: r != round ==> RoundOf(data', r) == RoundOf(data, r)
  {
    assert RoundOf(data, round) + map[sender := bytes] == RoundOf(data, round)[sender := bytes];
  }

  lemma MergeOrder<T>(m: map<nat, T>, s: nat, b: T, s': nat, b': T)
    requires s != s' || b == b'
    ensures m[s := b][s' := b'] == m[s' := b'][s := b]
    ensures s == s' ==> m[s := b][s' := b'] == m[s := b]
  {
  }

  lemma PutIsUpdate(data: Store, round: nat, sender: nat, bytes: seq<Byte>)
    ensures PutIn(data, round, sender, bytes) == data[round := RoundOf(data, round)[sender := bytes]]
  {
    assert RoundOf(data, round) + map[sender := bytes] == RoundOf(data, round)[sender := bytes];
  }

  /** A duplicate overwrites itself, and the order in which messages arrive makes no difference. */
  lemma ArrivalOrder(data: Store, r: nat, s: nat, b: seq<Byte>, r': nat, s': nat, b': seq<Byte>)
    requires (r, s) != (r', s') || b == b'
    ensures PutIn(PutIn(data, r, s, b), r', s', b') == PutIn(PutIn(data, r', s', b'), r, s, b)
    ensures r == r' && s == s' ==> PutIn(PutIn(data, r, s, b), r', s', b') == PutIn(data, r, s, b)
  {
    hide PutIn;
    PutIsUpdate(data, r, s, b);
    PutIsUpdate(data, r', s', b');
    PutIsUpdate(PutIn(data, r, s, b), r', s', b');
    PutIsUpdate(PutIn(data, r', s', b'), r, s, b);
    var m, m' := RoundOf(data, r), RoundOf(data, r');
    if r == r' {
      MergeOrder(m, s, b, s', b');
      assert data[r := m[s := b]][r := m[s := b][s' := b']] == data[r := m[s := b][s' := b']];
      assert data[r := m[s' := b']][r := m[s' := b'][s := b]] == data[r := m[s' := b'][s := b]];
    } else {
      MergeOrder(data, r, m[s := b], r', m'[s' := b']);
    }
  }

  class Buffer {
    var data: Store

    constructor ()
      ensures data == map[]
    {
      data := map[];
    }

    method Put(round: nat, sender: nat, bytes: seq<Byte>)
      modifies this
      ensures data == PutIn(old(data), round, sender, bytes)
      ensures RoundOf(data, round) == RoundOf(old(data), round)[sender := bytes]
      ensures forall r: nat :: r != round ==> RoundOf(data, r) == RoundOf(old(data), r)
    {
      PutChangesOne(data, round, sender, bytes);
      if round !in data {
        data := data[round := map[]];
      }
      var cur: map<nat, seq<Byte>> := data[round] + map[sender := bytes];
      data := data[round := cur];
    }

    /** One look at the buffer by a waiting node: it goes on when enough peers sent, or out of time. */
    method Poll(round: nat, expected: nat, expired: bool) returns (done: bool, got: map<nat, seq<Byte>>)
      ensures done <==> |RoundOf(data, round)| >= expected || expired
      ensures done ==> got == RoundOf(data, round)
    {
      got := if round in data then data[round] else map[];
      done := |got| >= expected || expired;
    }
  }

  // ---- States and steps ----

  datatype Msg = Msg(from: nat, to: nat, round: nat, data: seq<Byte>)

  /** A node: its local state after a number of rounds, the peers it has yet to send to, its buffer. */
  datatype Node = Node(local: Local, rounds: nat, todo: set<nat>, data: Store)

  datatype Verdict = Pending | Failed | Completed(result: int)

  datatype State = State(nodes: seq<Node>, net: set<Msg>, coll: Collected, verdict: Verdict)

  ghost function Below(n: nat): (s: set<nat>)
    ensures forall j: nat :: j in s <==> j < n
    ensures |s| == n
  {
    if n == 0 then {} else Below(n - 1) + {n - 1}
  }

  ghost function OthersOf(n: nat, me: nat): (s: set<nat>)
    ensures IsOthers(s, n, me)
    ensures me < n ==> |s| == n - 1
  {
    Below(n) - {me}
  }

  ghost function Init(d: Deal): State {
    var n := |d.tasks|;
    State(seq(n, j requires 0 <= j < n => Node(Start(d.tasks[j], d.p), 0, OthersOf(n, j), map[])),
          {}, Collected(map[], false, false), Pending)
  }

  /** The message that node i, about to finish broadcasting round rounds + 1, sends to node t. */
  ghost function Outgoing(d: Deal, s: State, i: nat, t: nat): Msg
    requires WellFormed(d, s) && i < |s.nodes| && s.nodes[i].local.Busy()
  {
    Msg(i, t, s.nodes[i].rounds + 1, Payload(d.tasks[i], s.nodes[i].local, d.p))
  }

  ghost predicate WellFormed(d: Deal, s: State) {
    && |s.nodes| == |d.tasks|
    && forall i :: 0 <= i < |s.nodes| ==> Fits(d.tasks[i], s.nodes[i].local)
  }

  ghost predicate Send(d: Deal, s: State, s': State, i: nat, t: nat)
    requires WellFormed(d, s)
  {
    && i < |s.nodes| && s.nodes[i].local.Busy() && t in s.nodes[i].todo
    && s' == s.(nodes := s.nodes[i := s.nodes[i].(todo := s.nodes[i].todo - {t})],
                net := s.net + {Outgoing(d, s, i, t)})
  }

  ghost predicate Deliver(d: Deal, s: State, s': State, m: Msg) {
    && m in s.net && m.to < |s.nodes|
    && s' == s.(nodes := s.nodes[m.to := s.nodes[m.to].(data := PutIn(s.nodes[m.to].data, m.round, m.from, m.data))])
  }

  /** Enough peers are in the buffer for node i to leave its round. */
  ghost predicate CanGather(d: Deal, s: State, i: nat)
    requires WellFormed(d, s)
  {
    && i < |s.nodes| && s.nodes[i].local.Busy() && s.nodes[i].todo == {}
    && |RoundOf(s.nodes[i].data, s.nodes[i].rounds + 1)| >= |s.nodes| - 1
  }

  ghost predicate Gather(d: Deal, s: State, s': State, i: nat)
    requires WellFormed(d, s)
  {
    && CanGather(d, s, i)
    && var node := s.nodes[i];
       var got := RoundOf(node.data, node.rounds + 1);
       s' == s.(nodes := s.nodes[i := Node(Advance(i, d.tasks[i], node.local, Gathers(got), d.p),
                                           node.rounds + 1, OthersOf(|s.nodes|, i), node.data)])
  }

  /** A failed send, a timed-out gather or a cancelled context makes the node return an error. */
  ghost predicate GiveUp(d: Deal, s: State, s': State, i: nat) {
    && i < |s.nodes| && s.nodes[i].local.Busy()
    && s' == s.(nodes := s.nodes[i := s.nodes[i].(local := Aborted)])
  }

  /** A finished node's result, or an aborted node's error, reaches the coordinator. */
  ghost predicate Submit(d: Deal, s: State, s': State, i: nat) {
    && i < |s.nodes| && !s.nodes[i].local.Busy()
    && s' == s.(coll := Collect(s.coll, |s.nodes|, i, Reported(s.nodes[i].local)))
  }

  function Reported(l: Local): Option<seq<Byte>> {
    if l.Finished? then Some(Bytes(l.value)) else None
  }

  /** The coordinator waits for the collector to close, or times out. */
  ghost predicate Decide(d: Deal, s: State, s': State)
    requires d.tasks != []
  {
    && s.verdict.Pending?
    && (s' == s.(verdict := Failed) ||
        (s.coll.closed && !s.coll.failed && |s.coll.shares| >= |d.tasks| &&
         var r := Recombined(d.tasks[0].op, |d.tasks|, s.coll.shares, d.p);
         r.Some? && s' == s.(verdict := Completed(r.value))))
  }

  ghost predicate Next(d: Deal, s: State, s': State) {
    && d.tasks != []
    && WellFormed(d, s)
    && ((exists i: nat, t: nat :: Send(d, s, s', i, t)) ||
        (exists m: Msg :: Deliver(d, s, s', m)) ||
        (exists i: nat :: Gather(d, s, s', i)) ||
        (exists i: nat :: GiveUp(d, s, s', i)) ||
        (exists i: nat :: Submit(d, s, s', i)) ||
        Decide(d, s, s'))
  }

  ghost predicate IsRun(d: Deal, run: seq<State>) {
    && run != []
    && run[0] == Init(d)
    && forall k :: 0 <= k < |run| - 1 ==> Next(d, run[k], run[k + 1])
  }

  /**
   * What may always happen: a message in the network arrives, however often it did before, and stays there;
   * a node that is computing gives up; an undecided session fails.
   */
  lemma AnythingMayFail(d: Deal, s: State)
    requires d.tasks != [] && WellFormed(d, s)
    ensures forall m :: m in s.net && m.to < |s.nodes| ==>
              exists s' :: Next(d, s, s') && s'.net == s.net
                           && m.from in RoundOf(s'.nodes[m.to].data, m.round)
                           && RoundOf(s'.nodes[m.to].data, m.round)[m.from] == m.data
    ensures forall i: nat :: i < |s.nodes| && s.nodes[i].local.Busy() ==>
              Next(d, s, s.(nodes := s.nodes[i := s.nodes[i].(local := Aborted)]))
    ensures s.verdict.Pending? ==> Next(d, s, s.(verdict := Failed))
  {
    forall m | m in s.net && m.to < |s.nodes|
      ensures exists s' :: Next(d, s, s') && s'.net == s.net
                           && m.from in RoundOf(s'.nodes[m.to].data, m.round)
                           && RoundOf(s'.nodes[m.to].data, m.round)[m.from] == m.data
    {
      var node := s.nodes[m.to];
      PutChangesOne(node.data, m.round, m.from, m.data);
      var s' := s.(nodes := s.nodes[m.to := node.(data := PutIn(node.data, m.round, m.from, m.data))]);
      hide PutIn, WellFormed, RoundOf;
      assert Deliver(d, s, s', m);
      assert Next(d, s, s');
    }
    hide WellFormed, Deliver, Send, Gather, Submit;
    forall i: nat | i < |s.nodes| && s.nodes[i].local.Busy()
      ensures Next(d, s, s.(nodes := s.nodes[i := s.nodes[i].(local := Aborted)]))
    {
      assert GiveUp(d, s, s.(nodes := s.nodes[i := s.nodes[i].(local := Aborted)]), i);
    }
  }

  // ---- Lockstep is uniform ----

  ghost predicate NoneBusy(ls: seq<Local>) {
    forall j :: 0 <= j < |ls| ==> !ls[j].Busy()
  }

  /** How many rounds every node of the session plays. */
  ghost function Rounds(d: Deal): nat
    requires d.Shaped()
  {
    if !BitsOk(d) || d.Inputs() < 2 then 0
    else
      match d.tasks[0].op
      case OpComparison => 1
      case OpMax => if d.Inputs() <= d.Triples() + 1 then 2 * d.Inputs() - 2 else 2 * d.Triples() + 1
      case _ => 0
  }

  lemma LockUniform(d: Deal, k: nat)
    requires d.Valid()
    ensures k < Rounds(d) ==> AllBusy(Lock(d, k))
    ensures k == Rounds(d) ==> NoneBusy(Lock(d, k))
  {
    if BitsOk(d) && d.Inputs() >= 2 && d.tasks[0].op.OpComparison? {
      LockStart(d);
      LockComparisonFinishes(d);
    } else if BitsOk(d) && d.Inputs() >= 2 && d.tasks[0].op.OpMax? {
      LockUniformMax(d, k);
    } else {
      assert Rounds(d) == 0;
    }
  }

  lemma LockUniformMax(d: Deal, k: nat)
    requires d.Valid() && BitsOk(d) && d.Inputs() >= 2 && d.tasks[0].op.OpMax?
    ensures k < Rounds(d) ==> AllBusy(Lock(d, k))
    ensures k == Rounds(d) ==> NoneBusy(Lock(d, k))
  {
    hide Lock, FoldSelect, Secret;
    if k == Rounds(d) {
      if d.Inputs() <= d.Triples() + 1 {
        LockMaxFinishes(d);
      } else {
        LockMaxExhausts(d);
      }
    } else if k < Rounds(d) {
      var i := k / 2 + 1;
      if k % 2 == 0 {
        LockCompare(d, i);
        assert k == 2 * i - 2;
      } else {
        LockSelect(d, i);
        assert k == 2 * i - 1;
      }
    }
  }

  /** The payload every honest node sends in a round. */
  ghost function RightMsg(d: Deal, from: nat, to: nat, round: nat): (m: Msg)
    requires d.Valid() && from < |d.tasks| && 1 <= round <= Rounds(d)
    ensures m.from == from && m.to == to && m.round == round
  {
    LockUniform(d, round - 1);
    var l := Lock(d, round - 1)[from];
    Msg(from, to, round, Payload(d.tasks[from], l, d.p))
  }

  // ---- The safety invariant ----

  ghost predicate RightKey(d: Deal, from: nat, to: nat, round: nat)
    requires d.Shaped()
  {
    from < |d.tasks| && to < |d.tasks| && from != to && 1 <= round <= Rounds(d)
  }

  ghost predicate NetInv(d: Deal, net: set<Msg>)
    requires d.Valid()
  {
    forall m :: m in net ==> RightKey(d, m.from, m.to, m.round) && m == RightMsg(d, m.from, m.to, m.round)
  }

  ghost predicate DataInv(d: Deal, i: nat, data: Store)
    requires d.Valid()
  {
    forall r: nat, j: nat :: r in data && j in data[r] ==>
      RightKey(d, j, i, r) && data[r][j] == RightMsg(d, j, i, r).data
  }

  ghost predicate NodeInv(d: Deal, i: nat, node: Node)
    requires d.Valid() && i < |d.tasks|
  {
    && node.rounds <= Rounds(d)
    && (node.local.Aborted? || node.local == Lock(d, node.rounds)[i])
    && (forall t :: t in node.todo ==> t < |d.tasks| && t != i)
    && DataInv(d, i, node.data)
  }

  ghost predicate CollInv(d: Deal, c: Collected)
    requires d.Valid()
  {
    forall i: nat :: i in c.shares ==>
      && i < |d.tasks|
      && Lock(d, Rounds(d))[i].Finished?
      && c.shares[i] == Bytes(Lock(d, Rounds(d))[i].value)
  }

  ghost predicate VerdictInv(d: Deal, v: Verdict)
    requires d.Valid()
  {
    v.Completed? ==> AllFinished(Lock(d, Rounds(d))) && v.result == SequentialResult(d)
  }

  /** What the protocol gives when the nodes move in lockstep and nothing goes wrong. */
  ghost function SequentialResult(d: Deal): int
    requires d.Shaped() && AllFinished(Lock(d, Rounds(d)))
  {
    var val := Secret(Values(Lock(d, Rounds(d))), d.p);
    if d.tasks[0].op.OpAverage? then val / |d.tasks| else val
  }

  ghost predicate Inv(d: Deal, s: State)
    requires d.Valid()
  {
    && WellFormed(d, s)
    && NetInv(d, s.net)
    && (forall i: nat :: i < |s.nodes| ==> NodeInv(d, i, s.nodes[i]))
    && CollInv(d, s.coll)
    && VerdictInv(d, s.verdict)
  }

  lemma InitNode(d: Deal, i: nat)
    requires d.Valid() && i < |d.tasks|
    ensures Fits(d.tasks[i], Start(d.tasks[i], d.p))
    ensures NodeInv(d, i, Init(d).nodes[i])
  {
    hide Rounds, RightMsg, LocalSum, Deal.Valid;
    assert Lock(d, 0)[i] == Start(d.tasks[i], d.p);
  }

  lemma InitInv(d: Deal)
    requires d.Valid()
    ensures Inv(d, Init(d))
  {
    hide Rounds, RightMsg, LocalSum, Lock, NodeInv, Start, Deal.Valid;
    forall i: nat | i < |d.tasks|
      ensures Fits(d.tasks[i], Init(d).nodes[i].local) && NodeInv(d, i, Init(d).nodes[i])
    {
      InitNode(d, i);
    }
  }

  lemma BusyHasRoundsLeft(d: Deal, s: State, i: nat)
    requires d.Valid() && WellFormed(d, s) && i < |s.nodes| && NodeInv(d, i, s.nodes[i])
    requires s.nodes[i].local.Busy()
    ensures s.nodes[i].rounds < Rounds(d)
    ensures AllBusy(Lock(d, s.nodes[i].rounds))
    ensures forall t :: Outgoing(d, s, i, t) == RightMsg(d, i, t, s.nodes[i].rounds + 1)
  {
    LockUniform(d, s.nodes[i].rounds);
  }

  lemma SendInv(d: Deal, s: State, s': State, i: nat, t: nat)
    requires d.Valid() && Inv(d, s) && Send(d, s, s', i, t)
    ensures Inv(d, s')
  {
    hide Lock, Rounds, RightMsg, Outgoing, CollInv, VerdictInv, DataInv;
    BusyHasRoundsLeft(d, s, i);
    assert NodeInv(d, i, s'.nodes[i]);
  }

  lemma DeliverInv(d: Deal, s: State, s': State, m: Msg)
    requires d.Valid() && Inv(d, s) && Deliver(d, s, s', m)
    ensures Inv(d, s')
  {
    hide Lock, Rounds, RightMsg, CollInv, VerdictInv;
    assert NodeInv(d, m.to, s'.nodes[m.to]);
  }

  /** A node with enough senders for a round in its buffer has everybody's broadcast of that round. */
  lemma FullRoundIsInbox(d: Deal, i: nat, data: Store, k: nat)
    requires d.Valid() && i < |d.tasks| && k < Rounds(d) && DataInv(d, i, data) && AllBusy(Lock(d, k))
    requires |RoundOf(data, k + 1)| >= |d.tasks| - 1
    ensures RoundOf(data, k + 1) == Inbox(d, Lock(d, k), i)
  {
    hide Lock, Rounds, Payload;
    var got, inbox := RoundOf(data, k + 1), Inbox(d, Lock(d, k), i);
    var others := OthersOf(|d.tasks|, i);
    assert got.Keys <= others;
    SubsetOfSameSize(got.Keys, others);
    assert inbox.Keys == others;
    forall j: nat | j in got
      ensures got[j] == inbox[j]
    {
      assert got[j] == RightMsg(d, j, i, k + 1).data;
    }
  }

  /** A node that leaves a round opens the broadcasts of all its peers for that round, and only those. */
  lemma GatherSeesEverybody(d: Deal, s: State, i: nat)
    requires d.Valid() && Inv(d, s) && CanGather(d, s, i)
    ensures AllBusy(Lock(d, s.nodes[i].rounds)) && s.nodes[i].local == Lock(d, s.nodes[i].rounds)[i]
    ensures RoundOf(s.nodes[i].data, s.nodes[i].rounds + 1) == Inbox(d, Lock(d, s.nodes[i].rounds), i)
  {
    hide Lock, Rounds, DataInv, NetInv, CollInv, VerdictInv, Inbox, AllBusy;
    assert NodeInv(d, i, s.nodes[i]);
    BusyHasRoundsLeft(d, s, i);
    FullRoundIsInbox(d, i, s.nodes[i].data, s.nodes[i].rounds);
  }

  lemma SubsetOfSameSize(a: set<nat>, b: set<nat>)
    requires a <= b && |a| >= |b|
    ensures a == b
  {
    assert |b| == |a| + |b - a| by {
      assert b == a + (b - a);
    }
    assert |b - a| == 0;
  }

  lemma GatherInv(d: Deal, s: State, s': State, i: nat)
    requires d.Valid() && Inv(d, s) && Gather(d, s, s', i)
    ensures Inv(d, s')
    ensures s'.nodes[i].local == Lock(d, s.nodes[i].rounds + 1)[i]
  {
    hide Lock, Rounds, RightMsg, CollInv, VerdictInv, DataInv, NetInv, Inbox, Advance, AllBusy;
    assert NodeInv(d, i, s.nodes[i]);
    GatherSeesEverybody(d, s, i);
    BusyHasRoundsLeft(d, s, i);
    LockAdvance(d, s.nodes[i].rounds, i);
    assert NodeInv(d, i, s'.nodes[i]);
  }

  lemma LockAdvance(d: Deal, k: nat, i: nat)
    requires i < |d.tasks| && AllBusy(Lock(d, k))
    ensures Lock(d, k + 1)[i] == Advance(i, d.tasks[i], Lock(d, k)[i], Gathers(Inbox(d, Lock(d, k), i)), d.p)
  {
    var ls := Lock(d, k);
    assert Lock(d, k + 1) == Round(d, ls);
  }

  lemma SubmitInv(d: Deal, s: State, s': State, i: nat)
    requires d.Valid() && Inv(d, s) && Submit(d, s, s', i)
    ensures Inv(d, s')
  {
    var k := s.nodes[i].rounds;
    LockUniform(d, k);
    hide Lock, Rounds, RightMsg, DataInv, VerdictInv, NetInv;
  }

  lemma DecideInv(d: Deal, s: State, s': State)
    requires d.Valid() && Inv(d, s) && Decide(d, s, s')
    ensures Inv(d, s')
  {
    hide Lock, Rounds, RightMsg, DataInv, NetInv;
    if s'.verdict.Completed? {
      CompletedIsSequential(d, s.coll);
    }
  }

  lemma CompletedIsSequential(d: Deal, c: Collected)
    requires d.Valid() && CollInv(d, c)
    requires AllPresent(|d.tasks|, c.shares)
    ensures AllFinished(Lock(d, Rounds(d)))
    ensures Recombined(d.tasks[0].op, |d.tasks|, c.shares, d.p) == Some(SequentialResult(d))
  {
    hide Lock, Rounds;
    var ls := Lock(d, Rounds(d));
    var parts := Parts(|d.tasks|, c.shares, d.p);
    forall j: nat | j < |ls|
      ensures ls[j].Finished? && Cong(parts[j], ls[j].value, d.p)
    {
      assert j in c.shares;
      LockElement(d, Rounds(d), j);
      BytesAreDigits(ls[j].value);
      Radix.ValueOfDigits(ls[j].value, 256);
    }
    SumCong(parts, Values(ls), d.p);
  }

  lemma StartElement(t: Task, p: Modulus)
    requires Elements(t.slots, p) && Start(t, p).Finished?
    ensures Element(Start(t, p).value, p)
  {
    hide Reduce;
    LocalSumIsSum(t.slots, p);
  }

  lemma AdvanceElement(me: nat, t: Task, l: Local, a: Answer, p: Modulus)
    requires Fits(t, l) && l.Busy() && Advance(me, t, l, a, p).Finished?
    ensures Element(Advance(me, t, l, a, p).value, p)
  {
    hide Opened, MulFinalize, Reduce, DecodeAll;
  }

  lemma {:induction false} LockElement(d: Deal, k: nat, j: nat)
    requires d.Shaped() && j < |d.tasks| && Lock(d, k)[j].Finished?
    ensures Element(Lock(d, k)[j].value, d.p)
  {
    hide Advance, Start, Inbox;
    if k == 0 {
      StartElement(d.tasks[j], d.p);
    } else if AllBusy(Lock(d, k - 1)) {
      LockAdvance(d, k - 1, j);
      var ls := Lock(d, k - 1);
      AdvanceElement(j, d.tasks[j], ls[j], Gathers(Inbox(d, ls, j)), d.p);
    } else {
      LockElement(d, k - 1, j);
    }
  }

  lemma {:induction false} SumCong(xs: seq<int>, ys: seq<int>, p: Modulus)
    requires |xs| == |ys| && forall j :: 0 <= j < |xs| ==> Cong(xs[j], ys[j], p)
    ensures Cong(Sum(xs), Sum(ys), p)
  {
    if xs != [] {
      var k := |xs| - 1;
      SumCong(xs[..k], ys[..k], p);
      CongAdd(Sum(xs[..k]), Sum(ys[..k]), xs[k], ys[k], p);
    }
  }

  // ---- Safety of every run ----

  lemma NextInv(d: Deal, s: State, s': State)
    requires d.Valid() && Inv(d, s) && Next(d, s, s')
    ensures Inv(d, s')
  {
    hide Inv, Send, Deliver, Gather, GiveUp, Submit, Decide;
    if i: nat, t: nat :| Send(d, s, s', i, t) {
      SendInv(d, s, s', i, t);
    } else if m: Msg :| Deliver(d, s, s', m) {
      DeliverInv(d, s, s', m);
    } else if i: nat :| Gather(d, s, s', i) {
      GatherInv(d, s, s', i);
    } else if i: nat :| GiveUp(d, s, s', i) {
      GiveUpInv(d, s, s', i);
    } else if i: nat :| Submit(d, s, s', i) {
      SubmitInv(d, s, s', i);
    } else {
      DecideInv(d, s, s');
    }
  }

  lemma GiveUpInv(d: Deal, s: State, s': State, i: nat)
    requires d.Valid() && Inv(d, s) && GiveUp(d, s, s', i)
    ensures Inv(d, s')
  {
    hide Lock, Rounds, RightMsg, DataInv, NetInv, CollInv, VerdictInv;
    assert NodeInv(d, i, s'.nodes[i]);
  }

  lemma {:induction false} RunInv(d: Deal, run: seq<State>, k: nat)
    requires d.Valid() && IsRun(d, run) && k < |run|
    ensures Inv(d, run[k])
  {
    if k == 0 {
      InitInv(d);
    } else {
      RunInv(d, run, k - 1);
      NextInv(d, run[k - 1], run[k]);
    }
  }

  /**
   * Whatever the interleaving, delays, duplicates, losses and failures, a session that completes
   * has the result of the lockstep protocol.
   */
  lemma RunIsSafe(d: Deal, run: seq<State>, k: nat)
    requires d.Valid() && IsRun(d, run) && k < |run| && run[k].verdict.Completed?
    ensures AllFinished(Lock(d, Rounds(d))) && run[k].verdict.result == SequentialResult(d)
  {
    RunInv(d, run, k);
  }

  /** What node j sends to everybody in round r + 1 of the lockstep protocol. */
  ghost predicate Broadcasts(d: Deal, r: nat, j: nat, data: seq<Byte>) {
    var ls := Lock(d, r);
    j < |ls| && ls[j].Busy() && Payload(d.tasks[j], ls[j], d.p) == data
  }

  /** In every run, a node that can leave its round holds exactly its peers' broadcasts of that round. */
  lemma RunGathersEverybody(d: Deal, run: seq<State>, k: nat, i: nat)
    requires d.Valid() && IsRun(d, run) && k < |run|
    requires WellFormed(d, run[k]) && CanGather(d, run[k], i)
    ensures
      var r := run[k].nodes[i].rounds;
      && AllBusy(Lock(d, r)) && run[k].nodes[i].local == Lock(d, r)[i]
      && RoundOf(run[k].nodes[i].data, r + 1) == Inbox(d, Lock(d, r), i)
  {
    hide Lock, Inbox, AllBusy, IsRun, Inv;
    RunInv(d, run, k);
    GatherSeesEverybody(d, run[k], i);
  }

  /** Single values that were sent are opened as the residue of the sum of everybody's. */
  lemma InboxOpensSum(d: Deal, ls: seq<Local>, i: nat, vals: seq<int>)
    requires AllFit(d, ls) && AllBusy(ls) && i < |ls| && |vals| == |ls| && Elements(vals, d.p)
    requires forall j :: 0 <= j < |ls| ==> Payload(d.tasks[j], ls[j], d.p) == Bytes(vals[j])
    ensures Opened(vals[i], Decoded(Inbox(d, ls, i), d.p), d.p) == Secret(vals, d.p)
  {
    hide Bytes, FromBytes, SetSum, Reduce, Opened, Secret, Payload;
    var m := Decoded(Inbox(d, ls, i), d.p);
    forall j: nat | j < |vals| && j != i
      ensures m[j] == vals[j]
    {
      FromBytesBytes(vals[j], d.p);
    }
    OpenedIsSecret(vals, i, m, d.p);
  }

  /** Pairs that were sent are opened as the two residues. */
  lemma InboxOpensSums(d: Deal, ls: seq<Local>, i: nat, dv: seq<int>, ev: seq<int>)
    requires d.Shaped() && AllFit(d, ls) && AllBusy(ls) && i < |ls|
    requires |dv| == |ls| == |ev| && Elements(dv, d.p) && Elements(ev, d.p)
    requires forall j :: 0 <= j < |ls| ==> Payload(d.tasks[j], ls[j], d.p) == EncodePair(Bytes(dv[j]), Bytes(ev[j]))
    ensures
      var pairs := DecodeAll(Inbox(d, ls, i));
      && AllPairs(pairs)
      && Opened(dv[i], FirstsOf(pairs, d.p), d.p) == Secret(dv, d.p)
      && Opened(ev[i], SecondsOf(pairs, d.p), d.p) == Secret(ev, d.p)
  {
    hide Bytes, Payload, EncodePair, DecodePair, Opened, Secret;
    var pairs := DecodeAll(Inbox(d, ls, i));
    forall j: nat | j < |ls| && j != i
      ensures pairs[j] == Pair(Bytes(dv[j]), Bytes(ev[j]))
    {
      BytesShort(dv[j], d.p);
      BytesShort(ev[j], d.p);
      DecodePairEncodePair(Bytes(dv[j]), Bytes(ev[j]));
    }
    OpenedPairs(dv, ev, i, pairs, d.p);
  }

  /**
   * In every run of n honest nodes, a node that leaves a round of single values opens exactly the residue
   * of the sum of all n values of that round, whatever was delayed, repeated, lost or sent ahead.
   */
  lemma RunOpensAllShares(d: Deal, run: seq<State>, k: nat, i: nat, vals: seq<int>)
    requires d.Valid() && IsRun(d, run) && k < |run|
    requires WellFormed(d, run[k]) && CanGather(d, run[k], i)
    requires |vals| == |d.tasks| && Elements(vals, d.p)
    requires forall j :: 0 <= j < |vals| ==> Broadcasts(d, run[k].nodes[i].rounds, j, Bytes(vals[j]))
    ensures Opened(vals[i], Decoded(RoundOf(run[k].nodes[i].data, run[k].nodes[i].rounds + 1), d.p), d.p)
         == Secret(vals, d.p)
  {
    RunGathersEverybody(d, run, k, i);
    var ls := Lock(d, run[k].nodes[i].rounds);
    hide Lock, IsRun, CanGather, Inbox, Opened, Secret, Decoded, Bytes, Payload, AllBusy;
    forall j | 0 <= j < |ls|
      ensures Payload(d.tasks[j], ls[j], d.p) == Bytes(vals[j])
    {
      assert Broadcasts(d, run[k].nodes[i].rounds, j, Bytes(vals[j]));
    }
    InboxOpensSum(d, ls, i, vals);
  }

  /** And a node that leaves a round of masked pairs opens both residues. */
  lemma RunOpensAllPairs(d: Deal, run: seq<State>, k: nat, i: nat, dv: seq<int>, ev: seq<int>)
    requires d.Valid() && IsRun(d, run) && k < |run|
    requires WellFormed(d, run[k]) && CanGather(d, run[k], i)
    requires |dv| == |d.tasks| == |ev| && Elements(dv, d.p) && Elements(ev, d.p)
    requires forall j :: 0 <= j < |dv| ==>
               Broadcasts(d, run[k].nodes[i].rounds, j, EncodePair(Bytes(dv[j]), Bytes(ev[j])))
    ensures
      var pairs := DecodeAll(RoundOf(run[k].nodes[i].data, run[k].nodes[i].rounds + 1));
      && AllPairs(pairs)
      && Opened(dv[i], FirstsOf(pairs, d.p), d.p) == Secret(dv, d.p)
      && Opened(ev[i], SecondsOf(pairs, d.p), d.p) == Secret(ev, d.p)
  {
    RunGathersEverybody(d, run, k, i);
    var ls := Lock(d, run[k].nodes[i].rounds);
    hide Lock, IsRun, CanGather, Inbox, Opened, Secret, DecodeAll, FirstsOf, SecondsOf, EncodePair, Bytes, Payload,
         AllBusy;
    forall j | 0 <= j < |ls|
      ensures Payload(d.tasks[j], ls[j], d.p) == EncodePair(Bytes(dv[j]), Bytes(ev[j]))
    {
      assert Broadcasts(d, run[k].nodes[i].rounds, j, EncodePair(Bytes(dv[j]), Bytes(ev[j])));
    }
    InboxOpensSums(d, ls, i, dv, ev);
  }
}
