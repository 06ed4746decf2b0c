/**
 * Runs without faults: nobody gives up. Such a run is never stuck before every node has played
 * all its rounds, and it cannot take productive steps for ever.
 */
module Progress {
  import opened Arithmetic
  import opened Field
  import opened Operations
  import opened Worker
  import opened Lockstep
  import opened Coordinator
  import opened Cluster

  /** The message has arrived. */
  ghost predicate Arrived(s: State, m: Msg) {
    m.to < |s.nodes| && m.from in RoundOf(s.nodes[m.to].data, m.round)
  }

  /** A step that moves the computation on: a send, the first arrival of a message, a gather. */
  ghost predicate Productive(d: Deal, s: State, s': State) {
    && WellFormed(d, s)
    && ((exists i: nat, t: nat :: Send(d, s, s', i, t)) ||
        (exists m: Msg :: !Arrived(s, m) && Deliver(d, s, s', m)) ||
        (exists i: nat :: Gather(d, s, s', i)))
  }

  // ---- The invariant of fault-free runs ----

  /** The rounds that node j has finished sending to t. */
  ghost predicate SentTo(d: Deal, net: set<Msg>, j: nat, node: Node, t: nat)
    requires d.Valid() && j < |d.tasks| && node.rounds <= Rounds(d)
  {
    && (forall r: nat :: 1 <= r <= node.rounds ==> RightMsg(d, j, t, r) in net)
    && (node.local.Busy() && t !in node.todo && node.rounds < Rounds(d) ==>
          RightMsg(d, j, t, node.rounds + 1) in net)
  }

  /** Nothing is in the network before it is sent. */
  ghost predicate NotYetSent(net: set<Msg>, j: nat, node: Node) {
    forall m :: m in net && m.from == j ==>
      m.round <= node.rounds || (m.round == node.rounds + 1 && m.to !in node.todo)
  }

  ghost predicate OnTrack(d: Deal, net: set<Msg>, j: nat, node: Node)
    requires d.Valid() && j < |d.tasks|
  {
    && node.rounds <= Rounds(d)
    && node.local == Lock(d, node.rounds)[j]
    && (forall t: nat :: t < |d.tasks| && t != j ==> SentTo(d, net, j, node, t))
    && NotYetSent(net, j, node)
  }

  ghost predicate LiveInv(d: Deal, s: State)
    requires d.Valid()
  {
    Inv(d, s) && forall j: nat :: j < |s.nodes| ==> OnTrack(d, s.net, j, s.nodes[j])
  }

  lemma InitLive(d: Deal)
    requires d.Valid()
    ensures LiveInv(d, Init(d))
  {
    InitInv(d);
    hide Inv, Start, Rounds, RightMsg, Payload;
  }

  lemma OnTrackOther(d: Deal, net: set<Msg>, j: nat, node: Node, m: Msg)
    requires d.Valid() && j < |d.tasks| && OnTrack(d, net, j, node) && m.from != j
    ensures OnTrack(d, net + {m}, j, node)
  {
    hide Lock, Rounds, RightMsg;
    forall t: nat | t < |d.tasks| && t != j
      ensures SentTo(d, net + {m}, j, node, t)
    {
      assert SentTo(d, net, j, node, t);
    }
  }

  lemma OnTrackData(d: Deal, net: set<Msg>, j: nat, node: Node, data: Store)
    requires d.Valid() && j < |d.tasks| && OnTrack(d, net, j, node)
    ensures OnTrack(d, net, j, node.(data := data))
  {
    hide Lock, Rounds, RightMsg;
    forall t: nat | t < |d.tasks| && t != j
      ensures SentTo(d, net, j, node.(data := data), t)
    {
      assert SentTo(d, net, j, node, t);
    }
  }

  lemma OnTrackSend(d: Deal, net: set<Msg>, i: nat, node: Node, t: nat)
    requires d.Valid() && i < |d.tasks| && OnTrack(d, net, i, node)
    requires node.local.Busy() && t in node.todo && node.rounds < Rounds(d)
    ensures RightMsg(d, i, t, node.rounds + 1) !in net
    ensures OnTrack(d, net + {RightMsg(d, i, t, node.rounds + 1)}, i, node.(todo := node.todo - {t}))
  {
    hide Lock, Rounds, RightMsg;
    var m := RightMsg(d, i, t, node.rounds + 1);
    forall u: nat | u < |d.tasks| && u != i
      ensures SentTo(d, net + {m}, i, node.(todo := node.todo - {t}), u)
    {
      assert SentTo(d, net, i, node, u);
    }
  }

  lemma OnTrackGather(d: Deal, net: set<Msg>, i: nat, node: Node, node': Node)
    requires d.Valid() && i < |d.tasks| && OnTrack(d, net, i, node)
    requires node.local.Busy() && node.todo == {} && node.rounds < Rounds(d)
    requires node'.rounds == node.rounds + 1 && node'.local == Lock(d, node'.rounds)[i]
    requires forall t: nat :: t < |d.tasks| && t != i ==> t in node'.todo
    ensures OnTrack(d, net, i, node')
  {
    hide Lock, Rounds, RightMsg;
    forall t: nat | t < |d.tasks| && t != i
      ensures SentTo(d, net, i, node', t)
    {
      assert SentTo(d, net, i, node, t);
    }
  }

  lemma SendLive(d: Deal, s: State, s': State, i: nat, t: nat)
    requires d.Valid() && LiveInv(d, s) && Send(d, s, s', i, t)
    ensures LiveInv(d, s')
    ensures 1 <= s.nodes[i].rounds + 1 <= Rounds(d)
    ensures s'.net == s.net + {RightMsg(d, i, t, s.nodes[i].rounds + 1)}
    ensures RightMsg(d, i, t, s.nodes[i].rounds + 1) !in s.net
  {
    hide Lock, Rounds, RightMsg, Outgoing, OnTrack, NetInv, DataInv, CollInv, VerdictInv, Fits;
    SendInv(d, s, s', i, t);
    assert NodeInv(d, i, s.nodes[i]);
    BusyHasRoundsLeft(d, s, i);
    hide Inv, NodeInv;
    var m := RightMsg(d, i, t, s.nodes[i].rounds + 1);
    OnTrackSend(d, s.net, i, s.nodes[i], t);
    forall j: nat | j < |s.nodes| && j != i
      ensures OnTrack(d, s'.net, j, s'.nodes[j])
    {
      OnTrackOther(d, s.net, j, s.nodes[j], m);
    }
  }

  lemma DeliverLive(d: Deal, s: State, s': State, m: Msg)
    requires d.Valid() && LiveInv(d, s) && Deliver(d, s, s', m)
    ensures LiveInv(d, s')
  {
    DeliverInv(d, s, s', m);
    hide Inv, Lock, Rounds, RightMsg, OnTrack, PutIn;
    OnTrackData(d, s.net, m.to, s.nodes[m.to], s'.nodes[m.to].data);
  }

  lemma GatherLive(d: Deal, s: State, s': State, i: nat)
    requires d.Valid() && LiveInv(d, s) && Gather(d, s, s', i)
    ensures LiveInv(d, s')
  {
    hide Lock, Rounds, RightMsg, Advance, OnTrack, NetInv, DataInv, CollInv, VerdictInv, Fits;
    GatherInv(d, s, s', i);
    assert NodeInv(d, i, s.nodes[i]);
    BusyHasRoundsLeft(d, s, i);
    hide Inv, NodeInv;
    OnTrackGather(d, s.net, i, s.nodes[i], s'.nodes[i]);
  }

  // ---- Termination ----

  /** Everything the nodes ever send. */
  ghost function AllMessages(d: Deal): (u: set<Msg>)
    requires d.Valid()
    ensures forall f: nat, t: nat, r: nat :: RightKey(d, f, t, r) ==> RightMsg(d, f, t, r) in u
  {
    set f, t, r | f in Below(|d.tasks|) && t in Below(|d.tasks|) && r in Below(Rounds(d) + 1) && RightKey(d, f, t, r)
      :: RightMsg(d, f, t, r)
  }

  ghost function ArrivedSet(d: Deal, s: State): set<Msg>
    requires d.Valid()
  {
    set m | m in AllMessages(d) && Arrived(s, m)
  }

  ghost function RoundsLeft(d: Deal, nodes: seq<Node>): (r: seq<int>)
    requires d.Valid()
    ensures |r| == |nodes|
  {
    seq(|nodes|, j requires 0 <= j < |nodes| => Rounds(d) - nodes[j].rounds)
  }

  /** How much is left to do: messages to send, messages to arrive, rounds to play. */
  ghost function Work(d: Deal, s: State): int
    requires d.Valid()
  {
    |AllMessages(d) - s.net| + |AllMessages(d) - ArrivedSet(d, s)| + Sum(RoundsLeft(d, s.nodes))
  }

  lemma WorkIsNatural(d: Deal, s: State)
    requires d.Valid() && LiveInv(d, s)
    ensures 0 <= Work(d, s)
  {
    hide Inv, Rounds, AllMessages, ArrivedSet;
    LiveHasAllNodes(d, s);
    var left := RoundsLeft(d, s.nodes);
    forall x | x in left
      ensures 0 <= x
    {
      var j: nat :| j < |left| && left[j] == x;
      assert OnTrack(d, s.net, j, s.nodes[j]);
    }
    SumNonNegative(left);
  }

  lemma OneFewer(u: set<Msg>, a: set<Msg>, m: Msg)
    requires m in u && m !in a
    ensures |u - (a + {m})| == |u - a| - 1
  {
    assert u - (a + {m}) == (u - a) - {m};
  }

  /** A step that leaves every buffer and round counter alone leaves arrivals and rounds alone. */
  lemma SameBuffers(d: Deal, s: State, s': State)
    requires d.Valid() && |s.nodes| == |s'.nodes|
    requires forall j: nat :: j < |s.nodes| ==> s'.nodes[j].data == s.nodes[j].data
    ensures ArrivedSet(d, s') == ArrivedSet(d, s)
    ensures (forall j: nat :: j < |s.nodes| ==> s'.nodes[j].rounds == s.nodes[j].rounds) ==>
      RoundsLeft(d, s'.nodes) == RoundsLeft(d, s.nodes)
  {
    hide AllMessages, Rounds;
    assert forall x :: Arrived(s', x) == Arrived(s, x);
  }

  lemma SendWorks(d: Deal, s: State, s': State, i: nat, t: nat)
    requires d.Valid() && LiveInv(d, s) && Send(d, s, s', i, t)
    ensures LiveInv(d, s') && Work(d, s') == Work(d, s) - 1
  {
    hide LiveInv, RightMsg, Rounds, Outgoing, ArrivedSet, RoundsLeft, Deal.Shaped, Payload, Fits;
    SendLive(d, s, s', i, t);
    TodoIsOthers(d, s, i, t);
    SameBuffers(d, s, s');
    assert RightKey(d, i, t, s.nodes[i].rounds + 1);
    OneFewer(AllMessages(d), s.net, RightMsg(d, i, t, s.nodes[i].rounds + 1));
  }

  lemma TodoIsOthers(d: Deal, s: State, i: nat, t: nat)
    requires d.Valid() && LiveInv(d, s) && i < |s.nodes| && t in s.nodes[i].todo
    ensures i < |d.tasks| && t < |d.tasks| && t != i
  {
    hide Lock, Rounds, RightMsg, DataInv, NetInv, OnTrack;
    assert NodeInv(d, i, s.nodes[i]);
  }

  lemma DeliverWorks(d: Deal, s: State, s': State, m: Msg)
    requires d.Valid() && LiveInv(d, s) && Deliver(d, s, s', m) && !Arrived(s, m)
    ensures LiveInv(d, s') && Work(d, s') == Work(d, s) - 1
  {
    hide LiveInv, Rounds, RightMsg, Deal.Valid, Arrived, AllMessages, PutIn, Fits;
    DeliverLive(d, s, s', m);
    SentIsRight(d, s, m);
    forall x | x in AllMessages(d)
      ensures Arrived(s', x) <==> Arrived(s, x) || x == m
    {
      ArrivesOnce(d, s, s', m, x);
    }
    assert ArrivedSet(d, s') == ArrivedSet(d, s) + {m};
    OneFewer(AllMessages(d), ArrivedSet(d, s), m);
    hide ArrivedSet;
    assert RoundsLeft(d, s'.nodes) == RoundsLeft(d, s.nodes);
  }

  lemma SentIsRight(d: Deal, s: State, m: Msg)
    requires d.Valid() && LiveInv(d, s) && m in s.net
    ensures m in AllMessages(d) && m.to < |s.nodes|
  {
    hide Lock, Rounds, NodeInv, OnTrack;
  }

  lemma ArrivesOnce(d: Deal, s: State, s': State, m: Msg, x: Msg)
    requires d.Valid() && Deliver(d, s, s', m) && x in AllMessages(d) && m in AllMessages(d)
    ensures Arrived(s', x) <==> Arrived(s, x) || x == m
  {
    hide Rounds, Payload;
    if x.to == m.to && x.round == m.round && x.from == m.from {
      assert x == m;
    }
  }

  lemma GatherWorks(d: Deal, s: State, s': State, i: nat)
    requires d.Valid() && LiveInv(d, s) && Gather(d, s, s', i)
    ensures LiveInv(d, s') && Work(d, s') == Work(d, s) - 1
  {
    hide LiveInv, Rounds, Advance, AllMessages, Deal.Valid, Fits, ArrivedSet;
    GatherLive(d, s, s', i);
    SameBuffers(d, s, s');
    var left := RoundsLeft(d, s.nodes);
    SumUpdate(left, i, left[i] - 1);
    assert RoundsLeft(d, s'.nodes) == left[i := left[i] - 1];
  }

  /** Every productive step uses up one unit of work. */
  lemma ProductiveWorks(d: Deal, s: State, s': State)
    requires d.Valid() && LiveInv(d, s) && Productive(d, s, s')
    ensures LiveInv(d, s') && Work(d, s') == Work(d, s) - 1
  {
    hide LiveInv, Send, Deliver, Gather, Arrived, Work;
    if i: nat, t: nat :| Send(d, s, s', i, t) {
      SendWorks(d, s, s', i, t);
    } else if m: Msg :| !Arrived(s, m) && Deliver(d, s, s', m) {
      DeliverWorks(d, s, s', m);
    } else {
      var i: nat :| Gather(d, s, s', i);
      GatherWorks(d, s, s', i);
    }
  }

  ghost predicate IsFaultFreeRun(d: Deal, run: seq<State>) {
    && run != []
    && run[0] == Init(d)
    && forall k :: 0 <= k < |run| - 1 ==> Productive(d, run[k], run[k + 1])
  }

  /** A fault-free run cannot be longer than the work there is at the start. */
  lemma {:induction false} FaultFreeRunIsFinite(d: Deal, run: seq<State>, k: nat)
    requires d.Valid() && IsFaultFreeRun(d, run) && k < |run|
    ensures LiveInv(d, run[k]) && Work(d, run[k]) == Work(d, Init(d)) - k
    ensures k <= Work(d, Init(d))
  {
    hide LiveInv, Productive, Work;
    if k == 0 {
      InitLive(d);
    } else {
      FaultFreeRunIsFinite(d, run, k - 1);
      ProductiveWorks(d, run[k - 1], run[k]);
    }
    WorkIsNatural(d, run[k]);
  }

  // ---- Nobody is ever stuck ----

  /** A node that nobody is behind. */
  ghost predicate IsLast(nodes: seq<Node>, i: nat) {
    i < |nodes| && forall j: nat :: j < |nodes| ==> nodes[i].rounds <= nodes[j].rounds
  }

  lemma {:induction false} SomeoneIsLast(nodes: seq<Node>) returns (i: nat)
    requires nodes != []
    ensures IsLast(nodes, i)
  {
    i := 0;
    if |nodes| > 1 {
      var front := nodes[..|nodes| - 1];
      i := SomeoneIsLast(front);
      if nodes[|nodes| - 1].rounds < nodes[i].rounds {
        i := |nodes| - 1;
      }
    }
  }

  /** Nothing is left to send in the current rounds, and nothing is under way. */
  ghost predicate Quiet(s: State) {
    && (forall j: nat :: j < |s.nodes| && s.nodes[j].local.Busy() ==> s.nodes[j].todo == {})
    && (forall m :: m in s.net ==> Arrived(s, m))
  }

  /** Once everything is sent and has arrived, the slowest node has heard from everybody. */
  lemma SlowestHearsFrom(d: Deal, s: State, i: nat, j: nat)
    requires d.Valid() && LiveInv(d, s) && i < |s.nodes| && s.nodes[i].rounds < Rounds(d)
    requires j < |s.nodes| && j != i && IsLast(s.nodes, i) && Quiet(s)
    ensures j in RoundOf(s.nodes[i].data, s.nodes[i].rounds + 1)
  {
    hide Inv, Lock, Rounds, RightMsg, Deal.Valid;
    var r := s.nodes[i].rounds;
    LiveHasAllNodes(d, s);
    assert OnTrack(d, s.net, j, s.nodes[j]);
    assert s.nodes[j].rounds == r ==> s.nodes[j].local.Busy() by {
      if s.nodes[j].rounds == r {
        StillBusy(d, s, j);
      }
    }
    assert SentTo(d, s.net, j, s.nodes[j], i);
    assert RightMsg(d, j, i, r + 1) in s.net;
    assert Arrived(s, RightMsg(d, j, i, r + 1));
  }

  lemma SlowestGathers(d: Deal, s: State, i: nat)
    requires d.Valid() && LiveInv(d, s) && WellFormed(d, s) && i < |s.nodes| && s.nodes[i].rounds < Rounds(d)
    requires IsLast(s.nodes, i) && Quiet(s)
    ensures CanGather(d, s, i)
  {
    hide LiveInv, Rounds, Arrived, Deal.Valid, Fits, IsLast, WellFormed;
    var r := s.nodes[i].rounds;
    StillBusy(d, s, i);
    var got := RoundOf(s.nodes[i].data, r + 1);
    forall j: nat | j < |s.nodes| && j != i
      ensures j in got
    {
      SlowestHearsFrom(d, s, i, j);
    }
    EnoughSenders(got, |s.nodes|, i);
  }

  lemma EnoughSenders(got: map<nat, seq<Byte>>, n: nat, i: nat)
    requires i < n && forall j: nat :: j < n && j != i ==> j in got
    ensures |got| >= n - 1
  {
    SubsetSize(OthersOf(n, i), got.Keys);
  }

  lemma StillBusy(d: Deal, s: State, i: nat)
    requires d.Valid() && LiveInv(d, s) && i < |s.nodes| && s.nodes[i].rounds < Rounds(d)
    ensures s.nodes[i].local.Busy()
  {
    LiveHasAllNodes(d, s);
    LockUniform(d, s.nodes[i].rounds);
    assert OnTrack(d, s.net, i, s.nodes[i]);
  }

  lemma SubsetSize(a: set<nat>, b: set<nat>)
    requires a <= b
    ensures |a| <= |b|
  {
    assert b == a + (b - a);
  }

  /** While some node is still computing, some productive step is possible. */
  lemma NeverStuck(d: Deal, s: State, b: nat) returns (s': State)
    requires d.Valid() && LiveInv(d, s) && b < |s.nodes| && s.nodes[b].local.Busy()
    ensures Productive(d, s, s')
  {
    hide LiveInv, Lock, Rounds, Arrived, Deal.Valid, CanGather, Payload;
    LiveHasAllNodes(d, s);
    BusyIsBehind(d, s, b);
    if j: nat, t: nat :| j < |s.nodes| && s.nodes[j].local.Busy() && t in s.nodes[j].todo {
      s' := s.(nodes := s.nodes[j := s.nodes[j].(todo := s.nodes[j].todo - {t})],
               net := s.net + {Outgoing(d, s, j, t)});
      assert Send(d, s, s', j, t);
    } else if m :| m in s.net && !Arrived(s, m) {
      SentIsRight(d, s, m);
      s' := s.(nodes := s.nodes[m.to := s.nodes[m.to].(data := PutIn(s.nodes[m.to].data, m.round, m.from, m.data))]);
      assert Deliver(d, s, s', m);
    } else {
      var i := SomeoneIsLast(s.nodes);
      SlowestGathers(d, s, i);
      s' := GatherStep(d, s, i);
    }
  }

  lemma GatherStep(d: Deal, s: State, i: nat) returns (s': State)
    requires WellFormed(d, s) && CanGather(d, s, i)
    ensures Gather(d, s, s', i)
  {
    hide Advance;
    var node := s.nodes[i];
    var got := RoundOf(node.data, node.rounds + 1);
    s' := s.(nodes := s.nodes[i := Node(Advance(i, d.tasks[i], node.local, Gathers(got), d.p),
                                        node.rounds + 1, OthersOf(|s.nodes|, i), node.data)]);
  }

  lemma BusyIsBehind(d: Deal, s: State, b: nat)
    requires d.Valid() && LiveInv(d, s) && b < |s.nodes| && s.nodes[b].local.Busy()
    ensures s.nodes[b].rounds < Rounds(d)
  {
    LiveHasAllNodes(d, s);
    assert NodeInv(d, b, s.nodes[b]);
    BusyHasRoundsLeft(d, s, b);
  }

  /** When a fault-free run is over, every node has played all its rounds and holds its lockstep share. */
  lemma FinishedTogether(d: Deal, s: State, i: nat)
    requires d.Valid() && LiveInv(d, s) && i < |s.nodes| && !s.nodes[i].local.Busy()
    ensures s.nodes[i].rounds == Rounds(d) && s.nodes[i].local == Lock(d, Rounds(d))[i]
  {
    LockUniform(d, s.nodes[i].rounds);
    assert OnTrack(d, s.net, i, s.nodes[i]);
  }

  lemma LiveHasAllNodes(d: Deal, s: State)
    requires d.Valid() && LiveInv(d, s)
    ensures |s.nodes| == |d.tasks| && WellFormed(d, s)
  {
    hide NetInv, NodeInv, CollInv, VerdictInv, OnTrack;
  }
}
