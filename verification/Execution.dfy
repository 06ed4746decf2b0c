/**
 * One execution from the clients' inputs to the answer: sharing, dealing, the tasks as the nodes decode
 * them, every run of the cluster, and recombination.
 */
module Execution {
  import opened Options
  import opened Arithmetic
  import opened Field
  import opened Sharing
  import opened Operations
  import opened Worker
  import opened Lockstep
  import opened Coordinator
  import opened Cluster
  import opened Sessions
  import opened Progress
  import opened Completion
  import opened Uneven
  import D = Delivery
  import M = Messages

  // ---- What a cluster owes its clients ----

  /** In every run a completed session has the answer, and no other verdict ends a run without faults. */
  ghost predicate Promises(d: Deal, a: Option<int>) {
    && (forall run: seq<State>, k: nat :: IsRun(d, run) && k < |run| && run[k].verdict.Completed? ==>
          run[k].verdict == Verdicts(a))
    && (forall run: seq<State> :: IsWholeSession(d, run) ==> run[|run| - 1].verdict == Verdicts(a))
    && (exists run: seq<State> :: IsWholeSession(d, run))
  }

  /** A run without faults that goes on as long as it can. */
  ghost predicate IsWholeSession(d: Deal, run: seq<State>) {
    run != [] && IsSession(d, Init(d), run) && AtEnd(d, run[|run| - 1])
  }

  ghost predicate NeverCompletes(d: Deal) {
    forall run: seq<State>, k: nat :: IsRun(d, run) && k < |run| ==> !run[k].verdict.Completed?
  }

  lemma PromiseKept(op: Op, n: nat, slots: seq<seq<int>>, triples: seq<seq<SharedTriple>>, p: Modulus)
    requires GoodDeal(op, n, slots, triples, p)
    ensures Promises(Dealt(op, n, slots, triples, p), ResultOf(op, n, SecretsOf(slots, p), p))
  {
    hide Dealt, GoodSlots, GoodTriples, IsRun, AtEnd, FaultFree, ResultOf, Deal.Valid, Lock, Rounds, SequentialResult;
    EndingIsResult(op, n, slots, triples, p);
    var d, a := Dealt(op, n, slots, triples, p), ResultOf(op, n, SecretsOf(slots, p), p);
    forall run: seq<State>, k: nat | IsRun(d, run) && k < |run| && run[k].verdict.Completed?
      ensures run[k].verdict == Verdicts(a)
    {
      RunIsSafe(d, run, k);
    }
    forall run: seq<State> | IsWholeSession(d, run)
      ensures run[|run| - 1].verdict == Verdicts(a)
    {
      SessionAnswers(op, n, slots, triples, p, run);
    }
    var run := SessionExists(op, n, slots, triples, p);
    assert run != [] && IsWholeSession(d, run);
  }

  // ---- Alike clusters promise the same ----

  lemma FaultFreeSame(d: Deal, e: Deal, s: State, s': State)
    requires Alike(d, e) && Plain(d, e, s) && FaultFree(d, s, s')
    ensures FaultFree(e, s, s') && Plain(d, e, s')
  {
    FaultFreeIsNext(d, s, s');
    NextSame(d, e, s, s');
    hide Send, Gather, PutIn, Recombined, Start, SameComparison, Next, Arrived;
    if Productive(d, s, s') {
      ProductiveSame(d, e, s, s');
    } else if Reports(d, s, s') {
      var i: nat :| i !in s.coll.shares && Submit(d, s, s', i);
      assert Submit(e, s, s', i);
    }
  }

  lemma ProductiveSame(d: Deal, e: Deal, s: State, s': State)
    requires Alike(d, e) && Plain(d, e, s) && Productive(d, s, s')
    ensures Productive(e, s, s')
  {
    hide Send, Gather, PutIn, Start, SameComparison, Arrived, Fits;
    if i: nat, t: nat :| Send(d, s, s', i, t) {
      SendSame(d, e, s, s', i, t);
    } else if m: Msg :| !Arrived(s, m) && Deliver(d, s, s', m) {
      assert Deliver(e, s, s', m);
    } else {
      var i: nat :| Gather(d, s, s', i);
      GatherSame(d, e, s, s', i);
    }
  }

  lemma {:induction false} AlikeSession(d: Deal, e: Deal, run: seq<State>, k: nat)
    requires Alike(d, e) && IsSession(d, Init(d), run) && k < |run|
    ensures Plain(d, e, run[k]) && (k > 0 ==> FaultFree(e, run[k - 1], run[k]))
  {
    hide FaultFree, Plain, Alike;
    AlikeStarts(d, e);
    if k > 0 {
      AlikeSession(d, e, run, k - 1);
      FaultFreeSame(d, e, run[k - 1], run[k]);
    }
  }

  lemma PlainBothWays(d: Deal, e: Deal, s: State)
    requires Plain(d, e, s)
    ensures Plain(e, d, s)
  {
    hide Fits;
  }

  lemma AlikeWholeSession(d: Deal, e: Deal, run: seq<State>)
    requires Alike(d, e) && IsWholeSession(d, run)
    ensures IsWholeSession(e, run)
  {
    hide FaultFree, Plain, Alike;
    AlikeStarts(d, e);
    forall k: nat | 0 < k < |run|
      ensures FaultFree(e, run[k - 1], run[k])
    {
      AlikeSession(d, e, run, k);
    }
    var last := run[|run| - 1];
    AlikeSession(d, e, run, |run| - 1);
    PlainBothWays(d, e, last);
    forall s' | FaultFree(e, last, s')
      ensures false
    {
      FaultFreeSame(e, d, last, s');
    }
    forall k | 0 <= k < |run| - 1
      ensures FaultFree(e, run[k], run[k + 1])
    {
      assert FaultFree(e, run[(k + 1) - 1], run[k + 1]);
    }
  }

  lemma AlikePromises(d: Deal, e: Deal, a: Option<int>)
    requires Alike(d, e) && Promises(e, a)
    ensures Promises(d, a)
  {
    hide Alike, IsRun, IsSession, AtEnd, Plain;
    AlikeStarts(d, e);
    forall run: seq<State>, k: nat | IsRun(d, run) && k < |run| && run[k].verdict.Completed?
      ensures run[k].verdict == Verdicts(a)
    {
      AlikeRuns(d, e, run, k);
      assert run[..k + 1][k] == run[k];
    }
    forall run: seq<State> | IsWholeSession(d, run)
      ensures run[|run| - 1].verdict == Verdicts(a)
    {
      AlikeWholeSession(d, e, run);
    }
    var run: seq<State> :| IsWholeSession(e, run);
    AlikeWholeSession(e, d, run);
  }

  // ---- What the nodes read ----

  /** What node j makes of its task. */
  function ReadTask(e: D.Envelope, op: Op, slots: seq<seq<int>>, triples: seq<seq<SharedTriple>>, j: nat, p: Modulus)
    : Task
    requires forall i :: 0 <= i < |slots| ==> j < |slots[i]|
    requires forall i :: 0 <= i < |triples| ==> j < |triples[i]|
  {
    match D.Received(e, op, slots, triples, j)
    case None => Task(op, [], [], 0)
    case Some(m) => Task(op, ParseSlots(m.shares, p), ParseTriples(m.triples, p), m.bitLen)
  }

  ghost predicate Sendable(es: seq<D.Envelope>, n: nat, slots: seq<seq<int>>) {
    |es| == n && |slots| < 0x8000_0000 && forall j :: 0 <= j < n ==> D.EnvelopeFits(es[j])
  }

  ghost function ReadDeal(
      es: seq<D.Envelope>, op: Op, n: nat, slots: seq<seq<int>>, triples: seq<seq<SharedTriple>>, p: Modulus): Deal
    requires GoodSlots(slots, n, p) && GoodTriples(triples, n, p) && |es| == n
  {
    Deal(p, seq(n, j requires 0 <= j < n => ReadTask(es[j], op, slots, triples, j, p)))
  }

  function Row(slots: seq<seq<int>>, j: nat): seq<int>
    requires forall i :: 0 <= i < |slots| ==> j < |slots[i]|
  {
    seq(|slots|, i requires 0 <= i < |slots| => slots[i][j])
  }

  lemma ReadShares(
      e: D.Envelope, op: Op, n: nat, slots: seq<seq<int>>, triples: seq<seq<SharedTriple>>, j: nat, p: Modulus)
    requires GoodDeal(op, n, slots, triples, p) && j < n && D.EnvelopeFits(e) && |slots| < 0x8000_0000
    ensures
      var t, row := ReadTask(e, op, slots, triples, j, p), Row(slots, j);
      t.op == op && t.bitLen == DEFAULT_BIT_LEN && t.slots == if row[0] == 0 then row[1..] else row
  {
    hide ParseSlots, ParseTriples, D.Received, M.Kept;
    D.ReceivedIsPruned(e, op, n, slots, triples, j, p);
    var row := Row(slots, j);
    if row[0] == 0 {
      D.ZeroShareShiftsSlots(e, op, n, slots, triples, j, p);
      var t := ReadTask(e, op, slots, triples, j, p);
      assert |t.slots| == |row[1..]|;
      assert forall i :: 0 <= i < |t.slots| ==> t.slots[i] == row[1..][i];
    } else {
      D.SharesVanish(op, n, slots, triples, j, p);
      M.Keeping(NodeTask(op, j, slots, triples).shares, M.EMPTY_SHARE);
      ParseNodeTask(op, n, slots, triples, j, p);
    }
  }

  lemma ReadTriples(
      e: D.Envelope, op: Op, n: nat, slots: seq<seq<int>>, triples: seq<seq<SharedTriple>>, j: nat, p: Modulus)
    requires GoodDeal(op, n, slots, triples, p) && j < n && D.EnvelopeFits(e) && |slots| < 0x8000_0000
    ensures
      var t := ReadTask(e, op, slots, triples, j, p);
      && |t.triples| <= |triples|
      && (|t.triples| == |triples| <==> forall i :: 0 <= i < |triples| ==> !AllZero(triples[i][j]))
      && (|t.triples| == |triples| ==> t.triples == Dealt(op, n, slots, triples, p).tasks[j].triples)
  {
    hide ParseSlots, D.Received, M.Kept;
    D.ReceivedIsPruned(e, op, n, slots, triples, j, p);
    D.TriplesVanish(op, n, slots, triples, j, p);
    M.Keeping(NodeTask(op, j, slots, triples).triples, M.EMPTY_TRIPLE);
  }

  /** A share of zero in slot 0 is left out; so is a triple of three zeros. */
  lemma ReadRow(
      e: D.Envelope, op: Op, n: nat, slots: seq<seq<int>>, triples: seq<seq<SharedTriple>>, j: nat, p: Modulus)
    requires GoodDeal(op, n, slots, triples, p) && j < n && D.EnvelopeFits(e) && |slots| < 0x8000_0000
    ensures
      var t, row := ReadTask(e, op, slots, triples, j, p), Row(slots, j);
      && t.op == op && t.bitLen == DEFAULT_BIT_LEN
      && t.slots == (if row[0] == 0 then row[1..] else row)
      && |t.triples| <= |triples|
      && (|t.triples| == |triples| <==> forall i :: 0 <= i < |triples| ==> !AllZero(triples[i][j]))
      && (|t.triples| == |triples| ==> t.triples == Dealt(op, n, slots, triples, p).tasks[j].triples)
  {
    hide D.Received, ParseSlots, ParseTriples, NodeTask, M.Kept, AllZero;
    ReadShares(e, op, n, slots, triples, j, p);
    ReadTriples(e, op, n, slots, triples, j, p);
  }



  predicate AllZero(t: SharedTriple) {
    t.A == 0 && t.B == 0 && t.C == 0
  }

  // ---- What a session over the wire promises ----

  /** Nothing that was dealt is lost on the wire. */
  predicate AllArrives(n: nat, slots: seq<seq<int>>, triples: seq<seq<SharedTriple>>)
    requires forall i :: 0 <= i < |slots| ==> |slots[i]| == n
    requires forall i :: 0 <= i < |triples| ==> |triples[i]| == n
  {
    && (forall j :: 0 <= j < n && slots != [] ==> slots[0][j] != 0)
    && forall i, j :: 0 <= i < |triples| && 0 <= j < n ==> !AllZero(triples[i][j])
  }

  lemma ReadAsDealt(
      es: seq<D.Envelope>, op: Op, n: nat, slots: seq<seq<int>>, triples: seq<seq<SharedTriple>>, p: Modulus)
    requires GoodDeal(op, n, slots, triples, p) && Sendable(es, n, slots) && AllArrives(n, slots, triples)
    ensures ReadDeal(es, op, n, slots, triples, p) == Dealt(op, n, slots, triples, p)
  {
    hide ReadTask, AllZero, ParseTask, NodeTask;
    var d, e := ReadDeal(es, op, n, slots, triples, p), Dealt(op, n, slots, triples, p);
    forall j: nat | j < n
      ensures d.tasks[j] == e.tasks[j]
    {
      ReadRow(es[j], op, n, slots, triples, j, p);
      ParseNodeTask(op, n, slots, triples, j, p);
      assert e.tasks[j].slots == Row(slots, j);
    }
  }

  /** The local sum is the same with and without a leading zero. */
  lemma {:induction false} LeadingZero(row: seq<int>, p: Modulus)
    requires |row| >= 2 && Elements(row, p) && row[0] == 0
    ensures LocalSum(row[1..], p) == LocalSum(row, p)
  {
    var k := |row| - 1;
    assert row[1..][..|row[1..]| - 1] == row[..k][1..];
    if k == 1 {
      ReduceElement(row[1], p);
    } else {
      LeadingZero(row[..k], p);
    }
  }

  lemma MuteSession(d: Deal, j: nat)
    requires j < |d.tasks| && Start(d.tasks[j], d.p).Aborted?
    ensures NeverCompletes(d)
  {
    forall run: seq<State>, k: nat | IsRun(d, run) && k < |run|
      ensures !run[k].verdict.Completed?
    {
      hide IsRun, Start;
      MuteNeverCompletes(d, run, k, j);
    }
  }

  /** What node j reads, beside what it was dealt. */
  lemma NodeReads(
      es: seq<D.Envelope>, op: Op, n: nat, slots: seq<seq<int>>, triples: seq<seq<SharedTriple>>, j: nat, p: Modulus)
    requires GoodDeal(op, n, slots, triples, p) && Sendable(es, n, slots) && j < n
    ensures
      var d, e, row := ReadDeal(es, op, n, slots, triples, p), Dealt(op, n, slots, triples, p), Row(slots, j);
      && d.p == e.p == p && |d.tasks| == |e.tasks| == n
      && d.tasks[j].op == e.tasks[j].op == op && d.tasks[j].bitLen == e.tasks[j].bitLen == DEFAULT_BIT_LEN
      && e.tasks[j].slots == row && Elements(row, p) && |row| == |slots| > 0 && row[0] == slots[0][j]
      && d.tasks[j].slots == (if row[0] == 0 then row[1..] else row)
  {
    hide ReadTask, AllZero, ParseTask, NodeTask;
    ReadRow(es[j], op, n, slots, triples, j, p);
    ParseNodeTask(op, n, slots, triples, j, p);
    assert Dealt(op, n, slots, triples, p).tasks[j].slots == Row(slots, j);
    forall i | 0 <= i < |slots|
      ensures Element(Row(slots, j)[i], p)
    {
      assert Element(slots[i][j], p);
    }
  }

  /**
   * A sum or an average keeps its promise over the wire, whatever vanishes, unless there is one input only
   * and some node's share of it is zero: then that node has nothing to add up, and no run completes.
   */
  lemma SumOverTheWire(
      es: seq<D.Envelope>, op: Op, n: nat, slots: seq<seq<int>>, triples: seq<seq<SharedTriple>>, p: Modulus)
    requires GoodDeal(op, n, slots, triples, p) && Sendable(es, n, slots) && (op.OpSum? || op.OpAverage?)
    ensures
      var d := ReadDeal(es, op, n, slots, triples, p);
      if |slots| == 1 && 0 in slots[0] then NeverCompletes(d)
      else Promises(d, ResultOf(op, n, SecretsOf(slots, p), p))
  {
    hide ReadDeal, Dealt, Promises, NeverCompletes, ResultOf, GoodTriples, D.EnvelopeFits, Row;
    var d, e := ReadDeal(es, op, n, slots, triples, p), Dealt(op, n, slots, triples, p);
    NodeReads(es, op, n, slots, triples, 0, p);
    forall j: nat | j < n
      ensures
        if |slots| == 1 && slots[0][j] == 0 then Start(d.tasks[j], p).Aborted?
        else Start(d.tasks[j], p).Finished? && Start(d.tasks[j], p) == Start(e.tasks[j], p)
    {
      NodeReads(es, op, n, slots, triples, j, p);
      if |slots| > 1 && slots[0][j] == 0 {
        LeadingZero(Row(slots, j), p);
      }
    }
    if |slots| == 1 && 0 in slots[0] {
      var j: nat :| j < |slots[0]| && slots[0][j] == 0;
      MuteSession(d, j);
    } else {
      assert Alike(d, e) by { hide Start; }
      PromiseKept(op, n, slots, triples, p);
      AlikePromises(d, e, ResultOf(op, n, SecretsOf(slots, p), p));
    }
  }

  /**
   * A comparison, which uses no triple, keeps its promise if and only if no node's share of the first input
   * is zero; with one that is, no run completes.
   */
  lemma ComparisonOverTheWire(
      es: seq<D.Envelope>, n: nat, slots: seq<seq<int>>, triples: seq<seq<SharedTriple>>, p: Modulus)
    requires GoodDeal(OpComparison, n, slots, triples, p) && Sendable(es, n, slots) && |slots| == 2
    ensures
      var d := ReadDeal(es, OpComparison, n, slots, triples, p);
      if 0 in slots[0] then NeverCompletes(d)
      else Promises(d, ResultOf(OpComparison, n, SecretsOf(slots, p), p))
  {
    hide ReadDeal, Dealt, Promises, NeverCompletes, ResultOf, GoodTriples, D.EnvelopeFits, Row;
    var d, e := ReadDeal(es, OpComparison, n, slots, triples, p), Dealt(OpComparison, n, slots, triples, p);
    NodeReads(es, OpComparison, n, slots, triples, 0, p);
    forall j: nat | j < n
      ensures
        if slots[0][j] == 0 then Start(d.tasks[j], p).Aborted?
        else Start(d.tasks[j], p) == Start(e.tasks[j], p) && SameComparison(d.tasks[j], e.tasks[j])
    {
      NodeReads(es, OpComparison, n, slots, triples, j, p);
    }
    if 0 in slots[0] {
      var j: nat :| j < |slots[0]| && slots[0][j] == 0;
      MuteSession(d, j);
    } else {
      assert Alike(d, e) by { hide Start, SameComparison; }
      PromiseKept(OpComparison, n, slots, triples, p);
      AlikePromises(d, e, ResultOf(OpComparison, n, SecretsOf(slots, p), p));
    }
  }

  /** How many rows and triples a node of a maximum reads decides whether it can complete at all. */
  lemma UnevenNeverCompletes(d: Deal, i: nat, j: nat)
    requires AllMax(d) && i < |d.tasks| && j < |d.tasks|
    requires |d.tasks[i].slots| != |d.tasks[j].slots| || d.tasks[i].slots == []
          || |d.tasks[i].slots| > |d.tasks[i].triples| + 1
    ensures NeverCompletes(d)
  {
    forall run: seq<State>, k: nat | IsRun(d, run) && k < |run|
      ensures !run[k].verdict.Completed?
    {
      hide IsRun, AllMax;
      if run[k].verdict.Completed? {
        CompletedIsEven(d, run, k, i, j);
      }
    }
  }

  lemma ReadAllMax(es: seq<D.Envelope>, n: nat, slots: seq<seq<int>>, triples: seq<seq<SharedTriple>>, p: Modulus)
    requires GoodDeal(OpMax, n, slots, triples, p) && Sendable(es, n, slots)
    ensures AllMax(ReadDeal(es, OpMax, n, slots, triples, p))
  {
    hide ReadDeal, Dealt;
    forall j: nat | j < n
      ensures |ReadDeal(es, OpMax, n, slots, triples, p).tasks| == n
      ensures ReadDeal(es, OpMax, n, slots, triples, p).tasks[j].op.OpMax?
    {
      NodeReads(es, OpMax, n, slots, triples, j, p);
    }
    NodeReads(es, OpMax, n, slots, triples, 0, p);
  }

  /**
   * A maximum never completes if some but not all nodes hold a zero share of slot 0, or if some node's
   * triples no longer suffice; with everything there it keeps its promise.
   */
  lemma MaxOverTheWire(es: seq<D.Envelope>, n: nat, slots: seq<seq<int>>, triples: seq<seq<SharedTriple>>, p: Modulus)
    requires GoodDeal(OpMax, n, slots, triples, p) && Sendable(es, n, slots)
    ensures
      var d := ReadDeal(es, OpMax, n, slots, triples, p);
      && (0 in slots[0] && (exists x :: x in slots[0] && x != 0) ==> NeverCompletes(d))
      && (forall j :: 0 <= j < n && |d.tasks[j].slots| > |d.tasks[j].triples| + 1 ==> NeverCompletes(d))
      && (AllArrives(n, slots, triples) ==> Promises(d, ResultOf(OpMax, n, SecretsOf(slots, p), p)))
  {
    hide ReadDeal, Dealt, Promises, NeverCompletes, ResultOf, ValidTriple, AllMax, Row, AllZero;
    var d := ReadDeal(es, OpMax, n, slots, triples, p);
    ReadAllMax(es, n, slots, triples, p);
    NodeReads(es, OpMax, n, slots, triples, 0, p);
    if 0 in slots[0] && exists x :: x in slots[0] && x != 0 {
      var i: nat :| i < |slots[0]| && slots[0][i] == 0;
      var j: nat :| j < |slots[0]| && slots[0][j] != 0;
      NodeReads(es, OpMax, n, slots, triples, i, p);
      NodeReads(es, OpMax, n, slots, triples, j, p);
      UnevenNeverCompletes(d, i, j);
    }
    forall j: nat | j < n && |d.tasks[j].slots| > |d.tasks[j].triples| + 1
      ensures NeverCompletes(d)
    {
      UnevenNeverCompletes(d, j, j);
    }
    if AllArrives(n, slots, triples) {
      ReadAsDealt(es, OpMax, n, slots, triples, p);
      PromiseKept(OpMax, n, slots, triples, p);
    }
  }

  lemma ReadWithoutFirst(
      e: D.Envelope, n: nat, slots: seq<seq<int>>, triples: seq<seq<SharedTriple>>, j: nat, p: Modulus)
    requires GoodDeal(OpMax, n, slots, triples, p) && j < n && D.EnvelopeFits(e) && |slots| < 0x8000_0000
    requires slots[0][j] == 0 && forall i :: 0 <= i < |triples| ==> !AllZero(triples[i][j])
    ensures ReadTask(e, OpMax, slots, triples, j, p) == Dealt(OpMax, n, slots[1..], triples, p).tasks[j]
  {
    hide ReadTask, AllZero, ParseTask, NodeTask, ValidTriple, Elements;
    var rest := slots[1..];
    ReadRow(e, OpMax, n, slots, triples, j, p);
    ParseNodeTask(OpMax, n, slots, triples, j, p);
    ParseNodeTask(OpMax, n, rest, triples, j, p);
    var t := Dealt(OpMax, n, rest, triples, p).tasks[j];
    assert t.slots == Row(slots, j)[1..];
    assert t.triples == Dealt(OpMax, n, slots, triples, p).tasks[j].triples;
  }

  /** When every share of slot 0 is zero all nodes lose it alike, and the maximum is that of the other inputs. */
  lemma ZeroInputIsDropped(
      es: seq<D.Envelope>, n: nat, slots: seq<seq<int>>, triples: seq<seq<SharedTriple>>, p: Modulus)
    requires GoodDeal(OpMax, n, slots, triples, p) && Sendable(es, n, slots) && |slots| > 1
    requires forall x :: x in slots[0] ==> x == 0
    requires forall i, j :: 0 <= i < |triples| && 0 <= j < n ==> !AllZero(triples[i][j])
    ensures Promises(ReadDeal(es, OpMax, n, slots, triples, p), ResultOf(OpMax, n, SecretsOf(slots[1..], p), p))
  {
    var rest := slots[1..];
    hide ReadTask, AllZero, ParseTask, NodeTask, Promises, ResultOf, ValidTriple, Elements;
    var d, e := ReadDeal(es, OpMax, n, slots, triples, p), Dealt(OpMax, n, rest, triples, p);
    forall j: nat | j < n
      ensures d.tasks[j] == e.tasks[j]
    {
      assert slots[0][j] in slots[0];
      ReadWithoutFirst(es[j], n, slots, triples, j, p);
    }
    assert d == e;
    PromiseKept(OpMax, n, rest, triples, p);
  }

  // ---- The whole of it ----

  function Residues(op: Op, inputs: map<int, Option<int>>, p: Modulus): (xs: seq<int>)
    requires UsableInputs(op, inputs)
    ensures |xs| == |inputs|
  {
    seq(|inputs|, i requires 0 <= i < |inputs| => Reduce(inputs[i].value, p))
  }

  /**
   * From the clients' inputs to what they are told, for every draw of shares and triples and every run: if
   * all that is dealt arrives, the session can only complete with the result of its operation on the inputs,
   * and without faults it does.
   */
  method Execute(
      op: Op, n: nat, inputs: map<int, Option<int>>, random: seq<seq<int>>, draws: seq<TripleDraw>, p: Modulus)
    returns (shared: SharesResult, triples: seq<seq<SharedTriple>>)
    requires n >= 2 && p <= MAX_MODULUS && |random| == |inputs| && |draws| == TripleCount(op, n)
    requires forall i :: 0 <= i < |random| ==> |random[i]| == n - 1 && Elements(random[i], p)
    requires forall i :: 0 <= i < |draws| ==> GoodDraw(draws[i], n, p)
    ensures shared.SharedSlots? <==> UsableInputs(op, inputs)
    ensures shared.SharedSlots? ==>
      && GoodDeal(op, n, shared.slots, triples, p)
      && forall es :: Sendable(es, n, shared.slots) && AllArrives(n, shared.slots, triples) ==>
           Promises(ReadDeal(es, op, n, shared.slots, triples, p), ResultOf(op, n, Residues(op, inputs, p), p))
  {
    triples := [];
    shared := ShareInputs(op, n, inputs, random, p);
    if shared.SharedSlots? {
      triples := BuildTriples(op, n, draws, p);
      assert SecretsOf(shared.slots, p) == Residues(op, inputs, p);
      forall es | Sendable(es, n, shared.slots) && AllArrives(n, shared.slots, triples)
        ensures Promises(ReadDeal(es, op, n, shared.slots, triples, p), ResultOf(op, n, Residues(op, inputs, p), p))
      {
        hide Promises, ResultOf, Secret, ReadDeal, Dealt, AllArrives, Sendable;
        ReadAsDealt(es, op, n, shared.slots, triples, p);
        PromiseKept(op, n, shared.slots, triples, p);
      }
    }
  }
}
