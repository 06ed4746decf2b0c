/**
 * Whole sessions without faults: the nodes compute, each reports once, and the coordinator decides when the
 * collector closes. Such a session always comes to its end, and the end is the sequential result.
 */
module Completion {
  import opened Options
  import opened Arithmetic
  import opened Field
  import opened Sharing
  import opened Operations
  import opened Worker
  import opened Lockstep
  import opened Coordinator
  import opened Cluster
  import opened Sessions
  import opened Progress

  /** A node that has stopped reports for the first time, to a collector that still listens. */
  ghost predicate Reports(d: Deal, s: State, s': State) {
    !s.coll.closed && exists i: nat :: i !in s.coll.shares && Submit(d, s, s', i)
  }

  /** What the coordinator makes of a closed collector. */
  function Decision(d: Deal, c: Collected): Verdict
    requires d.tasks != []
  {
    if c.failed || |c.shares| < |d.tasks| then Failed
    else
      match Recombined(d.tasks[0].op, |d.tasks|, c.shares, d.p)
      case None => Failed
      case Some(r) => Completed(r)
  }

  ghost predicate Decides(d: Deal, s: State, s': State)
    requires d.tasks != []
  {
    s.coll.closed && s.verdict.Pending? && s' == s.(verdict := Decision(d, s.coll))
  }

  ghost predicate FaultFree(d: Deal, s: State, s': State) {
    && d.tasks != []
    && WellFormed(d, s)
    && (Productive(d, s, s') || Reports(d, s, s') || Decides(d, s, s'))
  }

  ghost predicate IsSession(d: Deal, s: State, run: seq<State>) {
    && run != []
    && run[0] == s
    && forall k :: 0 <= k < |run| - 1 ==> FaultFree(d, run[k], run[k + 1])
  }

  /** Nothing is left to do. */
  ghost predicate AtEnd(d: Deal, s: State) {
    forall s' :: !FaultFree(d, s, s')
  }

  /** Steps without faults are steps of the cluster. */
  lemma FaultFreeIsNext(d: Deal, s: State, s': State)
    requires FaultFree(d, s, s')
    ensures Next(d, s, s')
  {
    hide Send, Deliver, Gather, Submit, WellFormed, Recombined, GiveUp;
    if Productive(d, s, s') {
      if i: nat, t: nat :| Send(d, s, s', i, t) {
      } else if m: Msg :| !Arrived(s, m) && Deliver(d, s, s', m) {
      }
    }
  }

  lemma SessionIsRun(d: Deal, run: seq<State>)
    requires IsSession(d, Init(d), run)
    ensures IsRun(d, run)
  {
    hide FaultFree, Next;
    forall k | 0 <= k < |run| - 1
      ensures Next(d, run[k], run[k + 1])
    {
      FaultFreeIsNext(d, run[k], run[k + 1]);
    }
  }

  // ---- The invariant ----

  /** How the session must end. */
  ghost function Ending(d: Deal): Verdict
    requires d.Shaped()
  {
    if AllFinished(Lock(d, Rounds(d))) then Completed(SequentialResult(d)) else Failed
  }

  ghost predicate CollectorInv(d: Deal, s: State)
    requires d.Valid()
  {
    && (forall i: nat :: i in s.coll.shares ==> i < |d.tasks|)
    && (s.coll.failed ==> s.coll.closed && !AllFinished(Lock(d, Rounds(d))))
    && (s.coll.closed && !s.coll.failed ==> |s.coll.shares| >= |d.tasks|)
    && (!s.coll.closed ==> |s.coll.shares| < |d.tasks|)
    && (s.verdict.Pending? || s.verdict == Ending(d))
  }

  ghost predicate SessionInv(d: Deal, s: State)
    requires d.Valid()
  {
    LiveInv(d, s) && CollectorInv(d, s)
  }

  lemma InitSession(d: Deal)
    requires d.Valid()
    ensures SessionInv(d, Init(d))
  {
    hide LiveInv;
    InitLive(d);
  }

  lemma ProductiveKeeps(d: Deal, s: State, s': State)
    requires Productive(d, s, s')
    ensures s'.coll == s.coll && s'.verdict == s.verdict
  {
    hide WellFormed, Outgoing, Advance, PutIn, CanGather;
    if i: nat, t: nat :| Send(d, s, s', i, t) {
    } else if m: Msg :| !Arrived(s, m) && Deliver(d, s, s', m) {
    }
  }

  /** The node's report: its lockstep share, or the error every node stops with. */
  lemma ReportIsLock(d: Deal, s: State, i: nat)
    requires d.Valid() && LiveInv(d, s) && i < |s.nodes| && !s.nodes[i].local.Busy()
    ensures i < |d.tasks| && s.nodes[i].local == Lock(d, Rounds(d))[i]
    ensures AllFinished(Lock(d, Rounds(d))) ==> s.nodes[i].local.Finished?
  {
    LiveHasAllNodes(d, s);
    FinishedTogether(d, s, i);
  }

  lemma ReportsLive(d: Deal, s: State, s': State, i: nat)
    requires d.Valid() && LiveInv(d, s) && Submit(d, s, s', i)
    ensures LiveInv(d, s') && s'.nodes == s.nodes && s'.net == s.net && s'.verdict == s.verdict
  {
    SubmitInv(d, s, s', i);
    hide Inv, OnTrack;
  }

  lemma CollectKeeps(d: Deal, s: State, s': State, i: nat, l: Local)
    requires d.Valid() && CollectorInv(d, s) && !s.coll.closed && i !in s.coll.shares && i < |d.tasks|
    requires !l.Busy() && (l.Aborted? ==> !AllFinished(Lock(d, Rounds(d))))
    requires s' == s.(coll := Collect(s.coll, |d.tasks|, i, Reported(l)))
    ensures CollectorInv(d, s') && (s'.coll.closed || |s'.coll.shares| > |s.coll.shares|)
  {
    hide Deal.Valid, Lock, Rounds, SequentialResult, Bytes, AllFinished, Ending;
  }

  lemma ReportsInv(d: Deal, s: State, s': State)
    requires d.Valid() && SessionInv(d, s) && Reports(d, s, s')
    ensures SessionInv(d, s') && s'.verdict == s.verdict && s'.nodes == s.nodes && s'.net == s.net
    ensures s'.coll.closed || |s'.coll.shares| > |s.coll.shares|
  {
    hide LiveInv, Lock, Rounds, SequentialResult, Collect, CollectorInv, AllFinished;
    var i: nat :| i !in s.coll.shares && Submit(d, s, s', i);
    ReportsLive(d, s, s', i);
    ReportIsLock(d, s, i);
    LiveHasAllNodes(d, s);
    CollectKeeps(d, s, s', i, s.nodes[i].local);
  }

  lemma ClosedIsDecided(d: Deal, s: State)
    requires d.Valid() && SessionInv(d, s) && s.coll.closed
    ensures Decision(d, s.coll) == Ending(d)
  {
    hide Lock, Rounds, SequentialResult, Recombined;
    if !s.coll.failed {
      EverybodyReported(|d.tasks|, s.coll.shares);
      assert CollInv(d, s.coll) by { hide NodeInv, OnTrack, NetInv; }
      CompletedIsSequential(d, s.coll);
    }
  }

  lemma EverybodyReported(n: nat, shares: map<nat, seq<Byte>>)
    requires (forall i: nat :: i in shares ==> i < n) && |shares| >= n
    ensures AllPresent(n, shares)
  {
    var all := Below(n);
    assert shares.Keys <= all;
    SubsetOfSameSize(shares.Keys, all);
    assert forall i: nat :: i < n ==> i in all;
  }

  lemma DecidesInv(d: Deal, s: State, s': State)
    requires d.Valid() && SessionInv(d, s) && Decides(d, s, s')
    ensures SessionInv(d, s')
  {
    ClosedIsDecided(d, s);
    FaultFreeDecides(d, s, s');
    assert Inv(d, s) by { hide OnTrack, Inv; }
    DecideInv(d, s, s');
    hide Inv, OnTrack, Lock, Rounds, SequentialResult, Decision, Decide;
  }

  lemma FaultFreeDecides(d: Deal, s: State, s': State)
    requires d.tasks != [] && Decides(d, s, s')
    ensures Decide(d, s, s')
  {
    hide Recombined;
  }

  // ---- The session ends ----

  /** What is left to do: the nodes' work, the reports, closing the collector and the decision. */
  ghost function SessionWork(d: Deal, s: State): int
    requires d.Valid()
  {
    Work(d, s) + (|d.tasks| - |s.coll.shares|) + (if s.coll.closed then 0 else |d.tasks| + 1)
    + (if s.verdict.Pending? then 1 else 0)
  }

  lemma SharesFit(n: nat, shares: map<nat, seq<Byte>>)
    requires forall i: nat :: i in shares ==> i < n
    ensures |shares| <= n
  {
    assert shares.Keys <= Below(n);
    SubsetSize(shares.Keys, Below(n));
  }

  lemma SessionWorkIsNatural(d: Deal, s: State)
    requires d.Valid() && SessionInv(d, s)
    ensures 0 <= SessionWork(d, s)
  {
    hide LiveInv, Work;
    WorkIsNatural(d, s);
    SharesFit(|d.tasks|, s.coll.shares);
  }

  lemma WorkIsTheNodes(d: Deal, s: State, s': State)
    requires d.Valid() && s'.nodes == s.nodes && s'.net == s.net
    ensures Work(d, s') == Work(d, s)
  {
    hide AllMessages, RoundsLeft;
    SameBuffers(d, s, s');
  }

  lemma FaultFreeWorks(d: Deal, s: State, s': State)
    requires d.Valid() && SessionInv(d, s) && FaultFree(d, s, s')
    ensures SessionInv(d, s') && SessionWork(d, s') < SessionWork(d, s)
  {
    hide LiveInv, Work, Lock, Rounds, Decision, SequentialResult;
    if Productive(d, s, s') {
      ProductiveWorks(d, s, s');
      ProductiveKeeps(d, s, s');
      hide Productive;
    } else if Reports(d, s, s') {
      hide Productive;
      ReportsInv(d, s, s');
      WorkIsTheNodes(d, s, s');
      SharesFit(|d.tasks|, s'.coll.shares);
      SharesFit(|d.tasks|, s.coll.shares);
    } else {
      hide Productive, Reports;
      DecidesInv(d, s, s');
      ClosedIsDecided(d, s);
      WorkIsTheNodes(d, s, s');
    }
  }

  lemma {:induction false} SessionKeeps(d: Deal, s: State, run: seq<State>, k: nat)
    requires d.Valid() && SessionInv(d, s) && IsSession(d, s, run) && k < |run|
    ensures SessionInv(d, run[k]) && k <= SessionWork(d, s) - SessionWork(d, run[k]) <= SessionWork(d, s)
  {
    hide SessionInv, FaultFree, SessionWork;
    if k > 0 {
      SessionKeeps(d, s, run, k - 1);
      FaultFreeWorks(d, run[k - 1], run[k]);
    }
    SessionWorkIsNatural(d, run[k]);
  }

  // ---- And it ends decided ----

  lemma BusyGoesOn(d: Deal, s: State, i: nat) returns (s': State)
    requires d.Valid() && SessionInv(d, s) && i < |s.nodes| && s.nodes[i].local.Busy()
    ensures FaultFree(d, s, s')
  {
    hide LiveInv, Productive, CollectorInv;
    LiveHasAllNodes(d, s);
    s' := NeverStuck(d, s, i);
  }

  lemma OpenGoesOn(d: Deal, s: State) returns (s': State)
    requires d.Valid() && SessionInv(d, s) && !s.coll.closed
    ensures FaultFree(d, s, s')
  {
    LiveHasAllNodes(d, s);
    var i := SomebodyMissing(|d.tasks|, s.coll.shares);
    if s.nodes[i].local.Busy() {
      s' := BusyGoesOn(d, s, i);
    } else {
      hide SessionInv, Productive, Lock, Rounds;
      s' := s.(coll := Collect(s.coll, |s.nodes|, i, Reported(s.nodes[i].local)));
      assert Submit(d, s, s', i);
    }
  }

  lemma SomebodyMissing(n: nat, shares: map<nat, seq<Byte>>) returns (i: nat)
    requires |shares| < n
    ensures i < n && i !in shares
  {
    if forall j: nat :: j < n ==> j in shares {
      SubsetSize(Below(n), shares.Keys);
      assert false;
    }
    i :| i < n && i !in shares;
  }

  /** Until every node has stopped and the session is decided, some step without faults is possible. */
  lemma SessionGoesOn(d: Deal, s: State)
    requires d.Valid() && SessionInv(d, s)
    requires s.verdict.Pending? || exists i: nat :: i < |s.nodes| && s.nodes[i].local.Busy()
    ensures exists s' :: FaultFree(d, s, s')
  {
    if i: nat :| i < |s.nodes| && s.nodes[i].local.Busy() {
      var s' := BusyGoesOn(d, s, i);
    } else if !s.coll.closed {
      var s' := OpenGoesOn(d, s);
    } else {
      LiveHasAllNodes(d, s);
      hide LiveInv, Decision, Productive, Reports, SessionInv;
      assert Decides(d, s, s.(verdict := Decision(d, s.coll)));
      assert FaultFree(d, s, s.(verdict := Decision(d, s.coll)));
    }
  }

  /** Where nothing is left to do the session is decided as it must be. */
  lemma EndIsDecided(d: Deal, s: State)
    requires d.Valid() && SessionInv(d, s) && AtEnd(d, s)
    ensures s.verdict == Ending(d)
    ensures |s.nodes| == |d.tasks|
    ensures forall i: nat :: i < |s.nodes| ==>
              s.nodes[i].rounds == Rounds(d) && s.nodes[i].local == Lock(d, Rounds(d))[i]
  {
    hide LiveInv, Lock, Rounds, SequentialResult, FaultFree;
    LiveHasAllNodes(d, s);
    if s.verdict.Pending? || exists i: nat :: i < |s.nodes| && s.nodes[i].local.Busy() {
      SessionGoesOn(d, s);
    }
    forall i: nat | i < |s.nodes|
      ensures s.nodes[i].rounds == Rounds(d) && s.nodes[i].local == Lock(d, Rounds(d))[i]
    {
      FinishedTogether(d, s, i);
    }
  }

  /** From any reachable state the session can be run to its end. */
  lemma {:induction false} RunToEnd(d: Deal, s: State) returns (run: seq<State>)
    requires d.Valid() && SessionInv(d, s)
    ensures IsSession(d, s, run) && AtEnd(d, run[|run| - 1])
    decreases SessionWork(d, s)
  {
    hide SessionInv, FaultFree, SessionWork;
    if AtEnd(d, s) {
      run := [s];
    } else {
      var s' :| FaultFree(d, s, s');
      FaultFreeWorks(d, s, s');
      SessionWorkIsNatural(d, s');
      SessionWorkIsNatural(d, s);
      var rest := RunToEnd(d, s');
      run := [s] + rest;
    }
  }

  /** Every run without faults that goes on as long as it can ends in the outcome of the lockstep protocol. */
  lemma SessionEnds(d: Deal, run: seq<State>)
    requires d.Valid() && IsSession(d, Init(d), run) && AtEnd(d, run[|run| - 1])
    ensures |run| - 1 <= SessionWork(d, Init(d))
    ensures run[|run| - 1].verdict == Ending(d)
  {
    hide SessionInv, FaultFree, SessionWork, AtEnd, Ending;
    InitSession(d);
    SessionKeeps(d, Init(d), run, |run| - 1);
    EndIsDecided(d, run[|run| - 1]);
  }

  // ---- What the session answers ----

  /** The answer to the inputs xs of a session of n parties, or nothing where the operation cannot finish. */
  function ResultOf(op: Op, n: nat, xs: seq<int>, p: Modulus): Option<int>
    requires n > 0 && xs != []
  {
    match op
    case OpSum => Some(Reduce(Sum(xs), p))
    case OpAverage => Some(Reduce(Sum(xs), p) / n)
    case OpComparison => if |xs| < 2 then None else Some(GreaterBit(Sub(xs[0], xs[1], p), p))
    case OpMax => if |xs| > n + 1 then None else Some(FoldSelect(xs, |xs|, p))
    case OpUnknown => None
  }

  function Verdicts(a: Option<int>): Verdict {
    match a
    case None => Failed
    case Some(r) => Completed(r)
  }

  lemma MaxEnding(d: Deal)
    requires d.Valid() && d.tasks[0].op.OpMax? && BitsOk(d)
    ensures Ending(d)
         == if d.Inputs() > d.Triples() + 1 then Failed else Completed(FoldSelect(d.Secrets(), d.Inputs(), d.p))
  {
    hide Lock, FoldSelect, Secret, SequentialResult;
    if d.Inputs() > d.Triples() + 1 {
      LockMaxExhausts(d);
    } else {
      LockMaxFinishes(d);
      MaxResult(d);
    }
  }

  lemma ComparisonEnding(d: Deal)
    requires d.Valid() && d.tasks[0].op.OpComparison? && BitsOk(d)
    ensures Ending(d)
         == if d.Inputs() < 2 then Failed else Completed(GreaterBit(Sub(d.Secrets()[0], d.Secrets()[1], d.p), d.p))
  {
    hide Lock, Secret, SequentialResult;
    if d.Inputs() < 2 {
      assert Lock(d, 0)[0] == Start(d.tasks[0], d.p) by { StartsThere(d); }
    } else {
      LockComparisonFinishes(d);
      ComparisonResult(d);
    }
  }

  lemma StartsThere(d: Deal)
    requires d.tasks != []
    ensures Lock(d, 0)[0] == Start(d.tasks[0], d.p)
  {
  }

  lemma SumEnding(d: Deal)
    requires d.Valid() && (d.tasks[0].op.OpSum? || d.tasks[0].op.OpAverage?)
    ensures
      var total := Reduce(Sum(d.Secrets()), d.p);
      Ending(d) == Completed(if d.tasks[0].op.OpSum? then total else total / |d.tasks|)
  {
    hide Lock, Secret, SequentialResult, Reduce;
    LockSumFinishes(d);
    SumResult(d);
  }

  lemma EndingIsResult(op: Op, n: nat, slots: seq<seq<int>>, triples: seq<seq<SharedTriple>>, p: Modulus)
    requires GoodDeal(op, n, slots, triples, p)
    ensures
      var d := Dealt(op, n, slots, triples, p);
      && d.Valid()
      && Ending(d) == Verdicts(ResultOf(op, n, SecretsOf(slots, p), p))
  {
    hide GoodSlots, GoodTriples, Ending, Dealt, Deal.Valid, Deal.Secrets, FoldSelect, GreaterBit, Sub;
    DealIsValid(op, n, slots, triples, p);
    var d := Dealt(op, n, slots, triples, p);
    match op
    case OpSum => SumEnding(d);
    case OpAverage => SumEnding(d);
    case OpComparison => ComparisonEnding(d);
    case OpMax => MaxEnding(d);
    case OpUnknown => UnknownEnding(d);
  }

  lemma UnknownEnding(d: Deal)
    requires d.Valid() && d.tasks[0].op.OpUnknown?
    ensures Ending(d) == Failed
  {
    hide Lock, SequentialResult;
    StartsThere(d);
  }

  /** A fault-free session that goes on as long as it can answers its inputs, and none answers otherwise. */
  lemma SessionAnswers(op: Op, n: nat, slots: seq<seq<int>>, triples: seq<seq<SharedTriple>>, p: Modulus,
                       run: seq<State>)
    requires GoodDeal(op, n, slots, triples, p)
    requires
      var d := Dealt(op, n, slots, triples, p);
      IsSession(d, Init(d), run) && AtEnd(d, run[|run| - 1])
    ensures run[|run| - 1].verdict == Verdicts(ResultOf(op, n, SecretsOf(slots, p), p))
    ensures
      var a := ResultOf(op, n, SecretsOf(slots, p), p);
      a.Some? ==> SessionRun(op, n, slots, triples, p, run, a.value)
  {
    hide ResultOf, Dealt, GoodSlots, GoodTriples, AtEnd, Init, IsRun, Ending, Deal.Valid;
    EndingIsResult(op, n, slots, triples, p);
    var d := Dealt(op, n, slots, triples, p);
    SessionEnds(d, run);
    SessionIsRun(d, run);
  }

  /** There is such a session. */
  lemma SessionExists(op: Op, n: nat, slots: seq<seq<int>>, triples: seq<seq<SharedTriple>>, p: Modulus)
    returns (run: seq<State>)
    requires GoodDeal(op, n, slots, triples, p)
    ensures
      var d := Dealt(op, n, slots, triples, p);
      IsSession(d, Init(d), run) && AtEnd(d, run[|run| - 1])
  {
    hide Deal.Valid, SessionInv;
    var d := Dealt(op, n, slots, triples, p);
    DealIsValid(op, n, slots, triples, p);
    InitSession(d);
    run := RunToEnd(d, Init(d));
  }

  /** At the end of a maximum every node has finished after a comparison and a selection per further input. */
  lemma MaxNodesFinish(d: Deal, s: State)
    requires d.Valid() && d.tasks[0].op.OpMax? && BitsOk(d) && d.Inputs() <= d.Triples() + 1
    requires SessionInv(d, s) && AtEnd(d, s)
    ensures |s.nodes| == |d.tasks|
    ensures forall i: nat :: i < |s.nodes| ==>
              s.nodes[i].local.Finished? && s.nodes[i].rounds == 2 * (d.Inputs() - 1)
  {
    hide Lock, FoldSelect, Secret, SessionInv, AtEnd, SequentialResult, Ending;
    EndIsDecided(d, s);
    LockMaxFinishes(d);
  }

  /**
   * A fault-free maximum over k inputs of n parties comes to an end. With k <= n + 1 it completes with the
   * maximum of inputs that are close to it, every node finishing after exactly 2(k - 1) rounds; with more
   * inputs it fails.
   */
  lemma MaxCompletes(n: nat, slots: seq<seq<int>>, triples: seq<seq<SharedTriple>>, p: Modulus, run: seq<State>)
    requires GoodDeal(OpMax, n, slots, triples, p)
    requires
      var d := Dealt(OpMax, n, slots, triples, p);
      IsSession(d, Init(d), run) && AtEnd(d, run[|run| - 1])
    ensures
      var last, xs := run[|run| - 1], SecretsOf(slots, p);
      if |slots| > n + 1 then last.verdict == Failed
      else
        && last.verdict == Completed(FoldSelect(xs, |xs|, p))
        && (Close(xs, p) ==> last.verdict == Completed(MaxOf(xs)))
        && |last.nodes| == n
        && forall i: nat :: i < n ==> last.nodes[i].local.Finished? && last.nodes[i].rounds == 2 * (|slots| - 1)
  {
    hide Dealt, GoodSlots, GoodTriples, AtEnd, Init, IsRun, Ending, Deal.Valid, FoldSelect, SequentialResult, Lock,
         SessionInv, FaultFree, SessionWork, IsSession, Close, MaxOf, BitsOk;
    var d := Dealt(OpMax, n, slots, triples, p);
    SessionAnswers(OpMax, n, slots, triples, p, run);
    DealIsValid(OpMax, n, slots, triples, p);
    if |slots| <= n + 1 {
      MaxSession(n, slots, triples, p, run, FoldSelect(SecretsOf(slots, p), |slots|, p));
      InitSession(d);
      SessionKeeps(d, Init(d), run, |run| - 1);
      MaxNodesFinish(d, run[|run| - 1]);
    }
  }
}
