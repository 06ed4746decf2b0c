/** What a session computes for its clients, over every run of the cluster. */
module Sessions {
  import opened Arithmetic
  import opened Field
  import opened Sharing
  import opened Operations
  import opened Worker
  import opened Lockstep
  import opened Coordinator
  import opened Cluster

  /** The secrets behind a list of share vectors. */
  ghost function SecretsOf(slots: seq<seq<int>>, p: Modulus): (xs: seq<int>)
    ensures |xs| == |slots|
  {
    seq(|slots|, i requires 0 <= i < |slots| => Secret(slots[i], p))
  }

  /** What the coordinator deals for a session of n parties. */
  ghost predicate GoodDeal(op: Op, n: nat, slots: seq<seq<int>>, triples: seq<seq<SharedTriple>>, p: Modulus) {
    && n >= 2 && slots != [] && p <= MAX_MODULUS
    && GoodSlots(slots, n, p) && GoodTriples(triples, n, p) && |triples| == TripleCount(op, n)
  }

  ghost predicate SessionRun(op: Op, n: nat, slots: seq<seq<int>>, triples: seq<seq<SharedTriple>>, p: Modulus,
                             run: seq<State>, result: int)
  {
    && GoodDeal(op, n, slots, triples, p)
    && run != [] && IsRun(Dealt(op, n, slots, triples, p), run)
    && run[|run| - 1].verdict == Completed(result)
  }

  lemma DealIsValid(op: Op, n: nat, slots: seq<seq<int>>, triples: seq<seq<SharedTriple>>, p: Modulus)
    requires GoodDeal(op, n, slots, triples, p)
    ensures
      var d := Dealt(op, n, slots, triples, p);
      && d.Valid() && d.p == p && d.tasks[0].op == op && BitsOk(d)
      && d.Parties() == n && d.Inputs() == |slots| && d.Triples() == TripleCount(op, n)
      && d.Secrets() == SecretsOf(slots, p)
  {
    hide Secret;
    DealtIsValid(op, n, slots, triples, p);
    assert Dealt(op, n, slots, triples, p).Secrets() == SecretsOf(slots, p);
  }

  lemma SessionResult(op: Op, n: nat, slots: seq<seq<int>>, triples: seq<seq<SharedTriple>>, p: Modulus,
                      run: seq<State>, result: int)
    requires SessionRun(op, n, slots, triples, p, run, result)
    ensures
      var d := Dealt(op, n, slots, triples, p);
      && d.Valid() && d.p == p && d.tasks[0].op == op && BitsOk(d)
      && d.Parties() == n && d.Inputs() == |slots| && d.Triples() == TripleCount(op, n)
      && d.Secrets() == SecretsOf(slots, p)
      && AllFinished(Lock(d, Rounds(d))) && result == SequentialResult(d)
  {
    hide Lock, Rounds, SequentialResult, Secret;
    DealIsValid(op, n, slots, triples, p);
    RunIsSafe(Dealt(op, n, slots, triples, p), run, |run| - 1);
  }

  lemma MaxResult(d: Deal)
    requires d.Valid() && d.tasks[0].op.OpMax? && BitsOk(d) && AllFinished(Lock(d, Rounds(d)))
    ensures d.Inputs() <= d.Triples() + 1
    ensures SequentialResult(d) == FoldSelect(d.Secrets(), d.Inputs(), d.p)
  {
    hide Lock, FoldSelect, Secret;
    if d.Inputs() > d.Triples() + 1 {
      LockMaxExhausts(d);
      assert false;
    }
    LockMaxFinishes(d);
    if d.Inputs() < 2 {
      assert Rounds(d) == 0;
    }
  }

  /**
   * A completed maximum is what the fold makes of the inputs: their maximum, in any order, if and only if
   * every input is less than half the modulus below it, as inputs in the lower half of the field are. No
   * session with more than one input above the number of parties ever completes.
   */
  lemma MaxSession(
      n: nat, slots: seq<seq<int>>, triples: seq<seq<SharedTriple>>, p: Modulus, run: seq<State>, result: int)
    requires SessionRun(OpMax, n, slots, triples, p, run, result)
    ensures |slots| <= n + 1
    ensures
      var xs := SecretsOf(slots, p);
      && result == FoldSelect(xs, |xs|, p)
      && (result == MaxOf(xs) <==>
            && (LastMax(xs) > 0 ==> MaxOf(xs) - FoldSelect(xs, LastMax(xs), p) <= p - p / 2)
            && forall k :: LastMax(xs) < k < |xs| ==> MaxOf(xs) - xs[k] < p / 2)
      && (Close(xs, p) ==> result == MaxOf(xs))
      && ((forall x :: x in xs ==> x < p / 2) ==> result == MaxOf(xs))
  {
    hide Lock, Rounds, Secret, FoldSelect, SequentialResult, Dealt, IsRun, GoodSlots, GoodTriples;
    SessionResult(OpMax, n, slots, triples, p, run, result);
    MaxResult(Dealt(OpMax, n, slots, triples, p));
    var xs := SecretsOf(slots, p);
    MaxOfIsMaximum(xs);
    FoldSelectExact(xs, p);
    if Close(xs, p) {
      FoldSelectIsMax(xs, |xs|, p);
      assert xs[..|xs|] == xs;
    }
  }

  lemma SumResult(d: Deal)
    requires d.Valid() && (d.tasks[0].op.OpSum? || d.tasks[0].op.OpAverage?)
    requires AllFinished(Lock(d, Rounds(d)))
    ensures SequentialResult(d)
         == if d.tasks[0].op.OpSum? then Reduce(Sum(d.Secrets()), d.p) else Reduce(Sum(d.Secrets()), d.p) / |d.tasks|
  {
    hide Reduce, Secret, Lock;
    LockSumFinishes(d);
  }

  /** A completed sum is the sum of the inputs modulo p. */
  lemma SumSession(
      n: nat, slots: seq<seq<int>>, triples: seq<seq<SharedTriple>>, p: Modulus, run: seq<State>, result: int)
    requires SessionRun(OpSum, n, slots, triples, p, run, result)
    ensures result == Reduce(Sum(SecretsOf(slots, p)), p)
    ensures Sum(SecretsOf(slots, p)) < p <==> result == Sum(SecretsOf(slots, p))
  {
    hide Reduce, Secret, Dealt, IsRun, GoodSlots, GoodTriples;
    SessionResult(OpSum, n, slots, triples, p, run, result);
    SumResult(Dealt(OpSum, n, slots, triples, p));
    var xs := SecretsOf(slots, p);
    SumNonNegative(xs);
    if Sum(xs) < p {
      ReduceElement(Sum(xs), p);
    }
  }

  /** The average divides the sum by the number of parties, rounding down. */
  lemma AverageSession(n: nat, slots: seq<seq<int>>, triples: seq<seq<SharedTriple>>, p: Modulus, run: seq<State>,
                       result: int)
    requires SessionRun(OpAverage, n, slots, triples, p, run, result)
    ensures result == Reduce(Sum(SecretsOf(slots, p)), p) / n
  {
    hide Reduce, Secret, Dealt, IsRun, GoodSlots, GoodTriples;
    SessionResult(OpAverage, n, slots, triples, p, run, result);
    SumResult(Dealt(OpAverage, n, slots, triples, p));
  }

  lemma ComparisonResult(d: Deal)
    requires d.Valid() && d.tasks[0].op.OpComparison? && BitsOk(d) && d.Inputs() >= 2
    requires AllFinished(Lock(d, Rounds(d)))
    ensures SequentialResult(d) == OpenedBit(d, 1)
  {
    hide Lock;
    LockComparisonFinishes(d);
    ReduceElement(OpenedBit(d, 1), d.p);
  }

  /**
   * A completed comparison says whether the first input is larger, exactly when the inputs
   * are less than half the modulus apart.
   */
  lemma ComparisonSession(n: nat, slots: seq<seq<int>>, triples: seq<seq<SharedTriple>>, p: Modulus, run: seq<State>,
                          result: int)
    requires SessionRun(OpComparison, n, slots, triples, p, run, result) && |slots| == 2
    ensures result == 0 || result == 1
    ensures
      var x, y := Secret(slots[0], p), Secret(slots[1], p);
      (result == 1 <==> x > y) <==> -(p - p / 2) <= x - y < p / 2
  {
    hide Lock, Rounds, SequentialResult, Dealt, IsRun, GoodSlots, GoodTriples, Secret;
    SessionResult(OpComparison, n, slots, triples, p, run, result);
    var d := Dealt(OpComparison, n, slots, triples, p);
    ComparisonResult(d);
    assert FoldSelect(d.Secrets(), 1, p) == d.Secrets()[0];
    GreaterBitExact(d.Secrets()[0], d.Secrets()[1], p);
  }
}
