/**
 * What the cluster does when its nodes were not dealt alike: nothing is assumed of the tasks. A maximum
 * then never completes, because somebody waits for a round that a shorter row never plays.
 */
module Uneven {
  import opened Options
  import opened Arithmetic
  import opened Field
  import opened Sharing
  import opened Operations
  import opened Worker
  import opened Lockstep
  import opened Coordinator
  import opened Cluster

  ghost predicate AllMax(d: Deal) {
    d.tasks != [] && forall j :: 0 <= j < |d.tasks| ==> d.tasks[j].op.OpMax?
  }

  /** Two rounds for every share after the first. */
  function TaskRounds(t: Task): nat {
    if t.slots == [] then 0 else 2 * |t.slots| - 2
  }

  /** Where a node must stand after r rounds. */
  predicate OnCount(t: Task, l: Local, r: nat) {
    match l
    case Comparing(i, _) => r == 2 * i - 2
    case Multiplying(i, _, _) => r == 2 * i - 1
    case Finished(_) => r == TaskRounds(t) && 1 <= |t.slots| <= |t.triples| + 1
    case Aborted => r <= TaskRounds(t)
  }

  ghost predicate Possible(d: Deal, from: nat, to: nat, round: nat) {
    from < |d.tasks| && to < |d.tasks| && from != to && 1 <= round <= TaskRounds(d.tasks[from])
  }

  ghost predicate NodeCounts(d: Deal, i: nat, node: Node)
    requires i < |d.tasks|
  {
    && OnCount(d.tasks[i], node.local, node.rounds)
    && (forall j :: 0 <= j < |d.tasks| ==> node.rounds <= TaskRounds(d.tasks[j]))
    && (forall t :: t in node.todo ==> t < |d.tasks| && t != i)
    && (forall r: nat, j: nat :: r in node.data && j in node.data[r] ==> Possible(d, j, i, r))
  }

  /** The node's row is as short as everybody's, and it has the triples for it. */
  ghost predicate CanFinish(d: Deal, i: nat) {
    && i < |d.tasks|
    && 1 <= |d.tasks[i].slots| <= |d.tasks[i].triples| + 1
    && forall j :: 0 <= j < |d.tasks| ==> TaskRounds(d.tasks[i]) <= TaskRounds(d.tasks[j])
  }

  ghost predicate UnevenInv(d: Deal, s: State) {
    && WellFormed(d, s)
    && (forall m :: m in s.net ==> Possible(d, m.from, m.to, m.round))
    && (forall i: nat :: i < |s.nodes| ==> NodeCounts(d, i, s.nodes[i]))
    && (forall i: nat :: i in s.coll.shares ==> CanFinish(d, i))
    && (s.verdict.Completed? ==> forall i: nat :: i < |d.tasks| ==> CanFinish(d, i))
  }

  lemma StartCounts(t: Task, p: Modulus)
    requires t.op.OpMax?
    ensures OnCount(t, Start(t, p), 0)
  {
  }

  lemma AdvanceCounts(me: nat, t: Task, l: Local, r: nat, a: Answer, p: Modulus)
    requires t.op.OpMax? && Fits(t, l) && l.Busy() && OnCount(t, l, r)
    ensures OnCount(t, Advance(me, t, l, a, p), r + 1) && r + 1 <= TaskRounds(t)
  {
    hide CompareSpec, MulSpec, Sub, BitLenInRange;
  }

  lemma InitUneven(d: Deal)
    requires AllMax(d)
    ensures UnevenInv(d, Init(d))
  {
    hide Start, OnCount, Fits;
    forall i: nat | i < |d.tasks|
      ensures Fits(d.tasks[i], Init(d).nodes[i].local) && NodeCounts(d, i, Init(d).nodes[i])
    {
      StartCounts(d.tasks[i], d.p);
      StartsFit(d.tasks[i], d.p);
    }
  }

  lemma StartsFit(t: Task, p: Modulus)
    ensures Fits(t, Start(t, p))
  {
  }

  lemma SendUneven(d: Deal, s: State, s': State, i: nat, t: nat)
    requires AllMax(d) && UnevenInv(d, s) && Send(d, s, s', i, t)
    ensures UnevenInv(d, s')
  {
    hide Payload, CanFinish;
    assert NodeCounts(d, i, s.nodes[i]) && Fits(d.tasks[i], s.nodes[i].local);
    assert NodeCounts(d, i, s'.nodes[i]);
  }

  lemma DeliverUneven(d: Deal, s: State, s': State, m: Msg)
    requires AllMax(d) && UnevenInv(d, s) && Deliver(d, s, s', m)
    ensures UnevenInv(d, s')
  {
    hide CanFinish, OnCount, Fits;
    assert NodeCounts(d, m.to, s'.nodes[m.to]);
  }

  /** A node leaves a round only when everybody else has played it. */
  lemma FullRound(d: Deal, i: nat, data: Store, r: nat)
    requires i < |d.tasks| && |RoundOf(data, r)| >= |d.tasks| - 1
    requires forall r: nat, j: nat :: r in data && j in data[r] ==> Possible(d, j, i, r)
    ensures forall j: nat :: j < |d.tasks| && j != i ==> Possible(d, j, i, r)
  {
    var got, others := RoundOf(data, r), OthersOf(|d.tasks|, i);
    assert forall j: nat :: j in got ==> Possible(d, j, i, r);
    hide RoundOf;
    assert got.Keys <= others;
    SubsetOfSameSize(got.Keys, others);
  }

  lemma CanGatherIsBusy(d: Deal, s: State, i: nat)
    requires WellFormed(d, s) && CanGather(d, s, i)
    ensures i < |s.nodes| == |d.tasks| && s.nodes[i].local.Busy() && Fits(d.tasks[i], s.nodes[i].local)
    ensures |RoundOf(s.nodes[i].data, s.nodes[i].rounds + 1)| >= |d.tasks| - 1
  {
  }

  lemma GatherCounts(d: Deal, i: nat, node: Node)
    requires AllMax(d) && i < |d.tasks| && Fits(d.tasks[i], node.local) && node.local.Busy() && NodeCounts(d, i, node)
    requires |RoundOf(node.data, node.rounds + 1)| >= |d.tasks| - 1
    ensures
      var l := Advance(i, d.tasks[i], node.local, Gathers(RoundOf(node.data, node.rounds + 1)), d.p);
      NodeCounts(d, i, Node(l, node.rounds + 1, OthersOf(|d.tasks|, i), node.data))
  {
    hide OnCount, Fits, TaskRounds, Advance, RoundOf;
    FullRound(d, i, node.data, node.rounds + 1);
    AdvanceCounts(i, d.tasks[i], node.local, node.rounds, Gathers(RoundOf(node.data, node.rounds + 1)), d.p);
    forall j: nat | j < |d.tasks|
      ensures node.rounds + 1 <= TaskRounds(d.tasks[j])
    {
      assert j != i ==> Possible(d, j, i, node.rounds + 1);
    }
  }

  lemma GatherUneven(d: Deal, s: State, s': State, i: nat)
    requires AllMax(d) && UnevenInv(d, s) && Gather(d, s, s', i)
    ensures UnevenInv(d, s')
  {
    hide CanFinish, Fits, Advance, CanGather, RoundOf, NodeCounts, Possible;
    CanGatherIsBusy(d, s, i);
    GatherCounts(d, i, s.nodes[i]);
  }

  lemma GiveUpUneven(d: Deal, s: State, s': State, i: nat)
    requires AllMax(d) && UnevenInv(d, s) && GiveUp(d, s, s', i)
    ensures UnevenInv(d, s')
  {
    hide CanFinish;
    assert NodeCounts(d, i, s.nodes[i]);
    assert NodeCounts(d, i, s'.nodes[i]);
  }

  lemma SubmitUneven(d: Deal, s: State, s': State, i: nat)
    requires AllMax(d) && UnevenInv(d, s) && Submit(d, s, s', i)
    ensures UnevenInv(d, s')
  {
    hide Possible, Fits, Bytes;
    assert NodeCounts(d, i, s.nodes[i]);
  }

  lemma DecideUneven(d: Deal, s: State, s': State)
    requires AllMax(d) && UnevenInv(d, s) && Decide(d, s, s')
    ensures UnevenInv(d, s')
  {
    hide NodeCounts, CanFinish, Possible, Fits;
  }

  lemma NextUneven(d: Deal, s: State, s': State)
    requires AllMax(d) && UnevenInv(d, s) && Next(d, s, s')
    ensures UnevenInv(d, s')
  {
    hide UnevenInv, Send, Deliver, Gather, GiveUp, Submit, Decide, WellFormed;
    if i: nat, t: nat :| Send(d, s, s', i, t) {
      SendUneven(d, s, s', i, t);
    } else if m: Msg :| Deliver(d, s, s', m) {
      DeliverUneven(d, s, s', m);
    } else if i: nat :| Gather(d, s, s', i) {
      GatherUneven(d, s, s', i);
    } else if i: nat :| GiveUp(d, s, s', i) {
      GiveUpUneven(d, s, s', i);
    } else if i: nat :| Submit(d, s, s', i) {
      SubmitUneven(d, s, s', i);
    } else {
      DecideUneven(d, s, s');
    }
  }

  lemma {:induction false} RunUneven(d: Deal, run: seq<State>, k: nat)
    requires AllMax(d) && IsRun(d, run) && k < |run|
    ensures UnevenInv(d, run[k])
  {
    hide UnevenInv, Next;
    if k == 0 {
      InitUneven(d);
    } else {
      RunUneven(d, run, k - 1);
      NextUneven(d, run[k - 1], run[k]);
    }
  }

  /**
   * Whatever the nodes hold: a maximum completes only if all of them hold equally many shares, at least
   * one, and each has a triple for every share after the first.
   */
  lemma CompletedIsEven(d: Deal, run: seq<State>, k: nat, i: nat, j: nat)
    requires AllMax(d) && IsRun(d, run) && k < |run| && run[k].verdict.Completed?
    requires i < |d.tasks| && j < |d.tasks|
    ensures |d.tasks[i].slots| == |d.tasks[j].slots| > 0
    ensures |d.tasks[i].slots| <= |d.tasks[i].triples| + 1
  {
    RunUneven(d, run, k);
    assert CanFinish(d, i) && CanFinish(d, j);
  }

  // ---- A node that cannot start ----

  ghost predicate Mute(s: State, j: nat) {
    j < |s.nodes| && s.nodes[j].local.Aborted? && j !in s.coll.shares && !s.verdict.Completed?
  }

  lemma NextMute(d: Deal, s: State, s': State, j: nat)
    requires Mute(s, j) && Next(d, s, s')
    ensures Mute(s', j)
  {
    hide Payload, Advance, Fits, PutIn, Bytes;
    if i: nat, t: nat :| Send(d, s, s', i, t) {
    } else if m: Msg :| Deliver(d, s, s', m) {
    } else if i: nat :| Gather(d, s, s', i) {
    } else if i: nat :| GiveUp(d, s, s', i) {
    } else if i: nat :| Submit(d, s, s', i) {
    } else {
      assert |d.tasks| == |s.nodes|;
    }
  }

  /** Whatever the operation: a session with a node that cannot start never completes. */
  lemma {:induction false} MuteNeverCompletes(d: Deal, run: seq<State>, k: nat, j: nat)
    requires j < |d.tasks| && Start(d.tasks[j], d.p).Aborted? && IsRun(d, run) && k < |run|
    ensures Mute(run[k], j)
  {
    hide Next, Start;
    if k > 0 {
      MuteNeverCompletes(d, run, k - 1, j);
      NextMute(d, run[k - 1], run[k], j);
    }
  }

  // ---- Tasks that differ only in what is not used ----

  /** Nodes that start alike, and compare the same shares if they compare at all. */
  ghost predicate Alike(d: Deal, e: Deal) {
    && d.p == e.p && |d.tasks| == |e.tasks| > 0 && d.tasks[0].op == e.tasks[0].op
    && forall j :: 0 <= j < |d.tasks| ==>
         && Start(d.tasks[j], d.p) == Start(e.tasks[j], e.p)
         && (Start(d.tasks[j], d.p).Busy() ==> SameComparison(d.tasks[j], e.tasks[j]))
  }

  predicate SameComparison(t: Task, u: Task) {
    t.op.OpComparison? && u.op.OpComparison? && t.slots == u.slots && t.bitLen == u.bitLen
  }

  ghost predicate Plain(d: Deal, e: Deal, s: State) {
    && WellFormed(d, s) && WellFormed(e, s)
    && forall j :: 0 <= j < |s.nodes| && s.nodes[j].local.Busy() ==>
         s.nodes[j].local.Comparing? && SameComparison(d.tasks[j], e.tasks[j])
  }

  lemma AlikeStarts(d: Deal, e: Deal)
    requires Alike(d, e)
    ensures Alike(e, d) && Init(d) == Init(e) && Plain(d, e, Init(d))
  {
    hide Start, Fits;
    forall j: nat | j < |d.tasks|
      ensures Fits(d.tasks[j], Start(d.tasks[j], d.p)) && Fits(e.tasks[j], Start(d.tasks[j], d.p))
      ensures !Start(d.tasks[j], d.p).Multiplying?
    {
      StartsFit(d.tasks[j], d.p);
      StartsFit(e.tasks[j], e.p);
    }
    assert Init(d).nodes == Init(e).nodes;
  }

  lemma SameRound(me: nat, t: Task, u: Task, l: Local, a: Answer, p: Modulus)
    requires SameComparison(t, u) && l.Comparing? && Fits(t, l)
    ensures Fits(u, l) && Payload(u, l, p) == Payload(t, l, p)
    ensures Advance(me, t, l, a, p) == Advance(me, u, l, a, p) && !Advance(me, t, l, a, p).Busy()
  {
    hide CompareSpec, Sub, Bytes;
  }

  lemma SendSame(d: Deal, e: Deal, s: State, s': State, i: nat, t: nat)
    requires Alike(d, e) && Plain(d, e, s) && Send(d, s, s', i, t)
    ensures Plain(d, e, s') && Send(e, s, s', i, t)
  {
    hide Payload, SameComparison, Fits, Start;
    SameRound(i, d.tasks[i], e.tasks[i], s.nodes[i].local, GatherFails, d.p);
  }

  lemma GatherSame(d: Deal, e: Deal, s: State, s': State, i: nat)
    requires Alike(d, e) && Plain(d, e, s) && Gather(d, s, s', i)
    ensures Plain(d, e, s') && Gather(e, s, s', i)
  {
    hide Advance, SameComparison, Fits, Start, RoundOf;
    var node := s.nodes[i];
    var a := Gathers(RoundOf(node.data, node.rounds + 1));
    SameRound(i, d.tasks[i], e.tasks[i], node.local, a, d.p);
    AdvancesFit(i, d.tasks[i], node.local, a, d.p);
    AdvancesFit(i, e.tasks[i], node.local, a, d.p);
  }

  lemma AdvancesFit(me: nat, t: Task, l: Local, a: Answer, p: Modulus)
    requires Fits(t, l) && l.Busy()
    ensures Fits(t, Advance(me, t, l, a, p))
  {
  }

  lemma AbortedFits(t: Task)
    ensures Fits(t, Aborted)
  {
  }

  lemma NextSame(d: Deal, e: Deal, s: State, s': State)
    requires Alike(d, e) && Plain(d, e, s) && Next(d, s, s')
    ensures Plain(d, e, s') && Next(e, s, s')
  {
    hide Send, Gather, PutIn, Recombined, Fits, Start, SameComparison;
    if i: nat, t: nat :| Send(d, s, s', i, t) {
      SendSame(d, e, s, s', i, t);
    } else if m: Msg :| Deliver(d, s, s', m) {
      assert Deliver(e, s, s', m);
    } else if i: nat :| Gather(d, s, s', i) {
      GatherSame(d, e, s, s', i);
    } else if i: nat :| GiveUp(d, s, s', i) {
      AbortedFits(d.tasks[i]);
      AbortedFits(e.tasks[i]);
      assert GiveUp(e, s, s', i);
    } else if i: nat :| Submit(d, s, s', i) {
      assert Submit(e, s, s', i);
    } else {
      assert Decide(e, s, s');
    }
  }

  /** Alike clusters have the same runs. */
  lemma {:induction false} AlikeRuns(d: Deal, e: Deal, run: seq<State>, k: nat)
    requires Alike(d, e) && IsRun(d, run) && k < |run|
    ensures Plain(d, e, run[k]) && IsRun(e, run[..k + 1])
  {
    hide Next, Plain, Alike;
    AlikeStarts(d, e);
    if k == 0 {
      assert run[..1] == [run[0]];
    } else {
      AlikeRuns(d, e, run, k - 1);
      NextSame(d, e, run[k - 1], run[k]);
      assert run[..k + 1] == run[..k] + [run[k]];
    }
  }
}
