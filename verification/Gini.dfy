/** The Gini coefficient of token holdings: the sorted-index formula is the pairwise one. */
module Gini {
  import opened Arithmetic

  // ---- The formula as it is computed ----

  predicate IsSorted(xs: seq<int>) {
    forall i, j :: 0 <= i < j < |xs| ==> xs[i] <= xs[j]
  }

  function Insert(x: int, xs: seq<int>): (r: seq<int>)
    ensures multiset(r) == multiset(xs + [x])
  {
    if xs == [] then [x]
    else
      var k := |xs| - 1;
      assert xs == xs[..k] + [xs[k]];
      if xs[k] <= x then xs + [x] else Insert(x, xs[..k]) + [xs[k]]
  }

  function Sorted(xs: seq<int>): (r: seq<int>)
    ensures multiset(r) == multiset(xs) && |r| == |xs|
  {
    if xs == [] then []
    else
      var k := |xs| - 1;
      assert xs == xs[..k] + [xs[k]];
      var r := Insert(xs[k], Sorted(xs[..k]));
      SameLength(r, xs);
      r
  }

  lemma SameLength(xs: seq<int>, ys: seq<int>)
    requires multiset(xs) == multiset(ys)
    ensures |xs| == |ys|
  {
    assert |multiset(xs)| == |xs| && |multiset(ys)| == |ys|;
  }

  lemma RemoveOne(front: seq<int>, x: int, a: seq<int>, b: seq<int>)
    requires multiset(front + [x]) == multiset(a + [x] + b)
    ensures multiset(front) == multiset(a + b)
  {
    assert multiset(front) == multiset(front + [x]) - multiset{x};
    assert multiset(a + b) == multiset(a + [x] + b) - multiset{x};
  }

  /** Where the last value of one list is in a rearrangement of it. */
  lemma Locate(xs: seq<int>, ys: seq<int>) returns (a: seq<int>, b: seq<int>)
    requires xs != [] && multiset(xs) == multiset(ys)
    ensures ys == a + [xs[|xs| - 1]] + b
    ensures multiset(xs[..|xs| - 1]) == multiset(a + b)
  {
    var k, x := |xs| - 1, xs[|xs| - 1];
    assert xs == xs[..k] + [x] && x in multiset(ys);
    var i :| 0 <= i < |ys| && ys[i] == x;
    a, b := ys[..i], ys[i + 1..];
    assert ys == a + [x] + b;
    RemoveOne(xs[..k], x, a, b);
  }

  /** Each value times its 1-based rank. */
  function RankSum(xs: seq<int>): int {
    if xs == [] then 0 else RankSum(xs[..|xs| - 1]) + |xs| * xs[|xs| - 1]
  }

  function Coefficient(xs: seq<int>): Fraction {
    if |xs| == 0 || Sum(xs) == 0 then Fraction(0, 1)
    else
      var sorted := Sorted(xs);
      var n := |sorted|;
      var total := Sum(sorted);
      Fraction(2 * RankSum(sorted) - (n + 1) * total, n * total)
  }

  // ---- The definition: the mean absolute difference of all pairs ----

  /** The distances of a value from all of a list. */
  function Distance(xs: seq<int>, v: int): nat {
    if xs == [] then 0 else Distance(xs[..|xs| - 1], v) + Abs(xs[|xs| - 1] - v)
  }

  /** The distances of all of one list from all of another. */
  function Spread(xs: seq<int>, ys: seq<int>): nat {
    if xs == [] then 0 else Spread(xs[..|xs| - 1], ys) + Distance(ys, xs[|xs| - 1])
  }

  function PairSum(xs: seq<int>): nat {
    Spread(xs, xs)
  }

  lemma {:induction false} DistanceAppend(xs: seq<int>, ys: seq<int>, v: int)
    ensures Distance(xs + ys, v) == Distance(xs, v) + Distance(ys, v)
  {
    if ys == [] {
      assert xs + ys == xs;
    } else {
      var k := |ys| - 1;
      assert (xs + ys)[..|xs| + k] == xs + ys[..k];
      DistanceAppend(xs, ys[..k], v);
    }
  }

  lemma {:induction false} SpreadAppendLeft(xs: seq<int>, ys: seq<int>, zs: seq<int>)
    ensures Spread(xs + ys, zs) == Spread(xs, zs) + Spread(ys, zs)
  {
    if ys == [] {
      assert xs + ys == xs;
    } else {
      var k := |ys| - 1;
      assert (xs + ys)[..|xs| + k] == xs + ys[..k];
      SpreadAppendLeft(xs, ys[..k], zs);
    }
  }

  lemma {:induction false} SpreadAppendRight(xs: seq<int>, ys: seq<int>, zs: seq<int>)
    ensures Spread(xs, ys + zs) == Spread(xs, ys) + Spread(xs, zs)
  {
    if xs != [] {
      var k := |xs| - 1;
      SpreadAppendRight(xs[..k], ys, zs);
      DistanceAppend(ys, zs, xs[k]);
    }
  }

  lemma {:induction false} SpreadOne(xs: seq<int>, v: int)
    ensures Spread([v], xs) == Distance(xs, v) == Spread(xs, [v])
  {
    assert Spread([], xs) == 0 && [v][..0] == [];
    if xs != [] {
      var k := |xs| - 1;
      SpreadOne(xs[..k], v);
      assert Distance([v], xs[k]) == Abs(v - xs[k]) by { assert [v][..0] == []; }
    }
  }

  /** One more value adds its distance to every other one, twice. */
  lemma PairSumInsert(a: seq<int>, x: int, b: seq<int>)
    ensures PairSum(a + [x] + b) == PairSum(a + b) + 2 * Distance(a + b, x)
  {
    hide Spread, Distance;
    var m := [x] + b;
    assert a + [x] + b == a + m;
    SpreadAppendLeft(a, m, a + m);
    SpreadAppendRight(a, a, m);
    SpreadAppendRight(m, a, m);
    SpreadAppendLeft([x], b, a);
    SpreadAppendRight(a, [x], b);
    SpreadAppendLeft([x], b, m);
    SpreadAppendRight([x], [x], b);
    SpreadAppendRight(b, [x], b);
    SpreadAppendLeft(a, b, a + b);
    SpreadAppendRight(a, a, b);
    SpreadAppendRight(b, a, b);
    SpreadOne(a, x);
    SpreadOne(b, x);
    SpreadSelf(x);
    DistanceAppend(a, b, x);
  }

  lemma SpreadSelf(x: int)
    ensures Spread([x], [x]) == 0
  {
    SpreadOne([x], x);
    assert [x][..0] == [] && Distance([], x) == 0;
  }

  lemma DistanceInsert(a: seq<int>, x: int, b: seq<int>, v: int)
    ensures Distance(a + [x] + b, v) == Distance(a + b, v) + Abs(x - v)
  {
    DistanceAppend(a + [x], b, v);
    DistanceAppend(a, [x], v);
    DistanceAppend(a, b, v);
    assert [x][..0] == [];
  }

  lemma {:induction false} DistanceIgnoresOrder(xs: seq<int>, ys: seq<int>, v: int)
    requires multiset(xs) == multiset(ys)
    ensures Distance(xs, v) == Distance(ys, v)
    decreases |xs|
  {
    if xs != [] {
      var k := |xs| - 1;
      var a, b := Locate(xs, ys);
      DistanceIgnoresOrder(xs[..k], a + b, v);
      DistanceInsert(a, xs[k], b, v);
    } else {
      SameLength(xs, ys);
    }
  }

  /** So the pairwise sum does not depend on the order. */
  lemma {:induction false} PairSumIgnoresOrder(xs: seq<int>, ys: seq<int>)
    requires multiset(xs) == multiset(ys)
    ensures PairSum(xs) == PairSum(ys)
    decreases |xs|
  {
    if xs != [] {
      var k := |xs| - 1;
      var a, b := Locate(xs, ys);
      hide PairSum, Distance;
      PairSumIgnoresOrder(xs[..k], a + b);
      DistanceIgnoresOrder(xs[..k], a + b, xs[k]);
      assert xs == xs[..k] + [xs[k]] + [] && xs[..k] + [] == xs[..k];
      PairSumInsert(xs[..k], xs[k], []);
      PairSumInsert(a, xs[k], b);
    } else {
      SameLength(xs, ys);
    }
  }

  // ---- The two forms agree ----

  lemma InsertMembers(x: int, xs: seq<int>)
    ensures forall y :: y in Insert(x, xs) ==> y == x || y in xs
  {
    var r := Insert(x, xs);
    forall y | y in r
      ensures y == x || y in xs
    {
      assert y in multiset(r);
      assert y in xs + [x];
    }
  }

  lemma {:induction false} InsertSorts(x: int, xs: seq<int>)
    requires IsSorted(xs)
    ensures IsSorted(Insert(x, xs))
  {
    if xs != [] {
      var k := |xs| - 1;
      if xs[k] > x {
        InsertSorts(x, xs[..k]);
        InsertMembers(x, xs[..k]);
        var r := Insert(x, xs[..k]);
        forall i | 0 <= i < |r|
          ensures r[i] <= xs[k]
        {
          assert r[i] in r;
        }
      }
    }
  }

  lemma {:induction false} SortedIsSorted(xs: seq<int>)
    ensures IsSorted(Sorted(xs))
  {
    if xs != [] {
      SortedIsSorted(xs[..|xs| - 1]);
      InsertSorts(xs[|xs| - 1], Sorted(xs[..|xs| - 1]));
    }
  }

  lemma {:induction false} DistanceFromMaximum(xs: seq<int>, v: int)
    requires forall i :: 0 <= i < |xs| ==> xs[i] <= v
    ensures Distance(xs, v) == |xs| * v - Sum(xs)
  {
    if xs != [] {
      DistanceFromMaximum(xs[..|xs| - 1], v);
    }
  }

  lemma RankStep(pairs: int, ranks: int, sum: int, k: nat, x: int)
    requires pairs == 2 * (2 * ranks - (k + 1) * sum)
    ensures pairs + 2 * (k * x - sum) == 2 * (2 * (ranks + (k + 1) * x) - (k + 2) * (sum + x))
  {
  }

  /** On a sorted list the rank formula is half the sum of all pairwise distances. */
  lemma {:induction false} RanksCountPairs(xs: seq<int>)
    requires IsSorted(xs)
    ensures PairSum(xs) == 2 * (2 * RankSum(xs) - (|xs| + 1) * Sum(xs))
  {
    if xs != [] {
      var k := |xs| - 1;
      var front, x := xs[..k], xs[k];
      RanksCountPairs(front);
      assert xs == front + [x] + [] && front + [] == front;
      hide PairSum, Distance;
      PairSumInsert(front, x, []);
      DistanceFromMaximum(front, x);
      RankStep(PairSum(front), RankSum(front), Sum(front), k, x);
    }
  }

  lemma SumInsert(a: seq<int>, x: int, b: seq<int>)
    ensures Sum(a + [x] + b) == Sum(a + b) + x
  {
    SumAppend(a + [x], b);
    SumSnoc(a, x);
    SumAppend(a, b);
  }

  lemma {:induction false} SumIgnoresOrder(xs: seq<int>, ys: seq<int>)
    requires multiset(xs) == multiset(ys)
    ensures Sum(xs) == Sum(ys)
    decreases |xs|
  {
    if xs != [] {
      var k := |xs| - 1;
      var a, b := Locate(xs, ys);
      SumIgnoresOrder(xs[..k], a + b);
      SumInsert(a, xs[k], b);
    } else {
      SameLength(xs, ys);
    }
  }

  /** The coefficient is the sum of all pairwise distances over twice the number times the sum of the holdings. */
  lemma CoefficientIsPairwise(xs: seq<int>)
    requires |xs| > 0 && Sum(xs) != 0
    ensures 2 * Coefficient(xs).num == PairSum(xs)
    ensures Coefficient(xs).den == |xs| * Sum(xs)
  {
    SortedIsSorted(xs);
    RanksCountPairs(Sorted(xs));
    PairSumIgnoresOrder(xs, Sorted(xs));
    SumIgnoresOrder(xs, Sorted(xs));
  }

  /** It does not depend on the order of the holdings. */
  lemma CoefficientIgnoresOrder(xs: seq<int>, ys: seq<int>)
    requires multiset(xs) == multiset(ys)
    ensures Coefficient(xs) == Coefficient(ys)
  {
    SameLength(xs, ys);
    SumIgnoresOrder(xs, ys);
    if |xs| > 0 && Sum(xs) != 0 {
      CoefficientIsPairwise(xs);
      CoefficientIsPairwise(ys);
      PairSumIgnoresOrder(xs, ys);
    }
  }

  lemma RankBoundStep(ranks: int, sum: int, rank: nat, n: nat, x: nat)
    requires ranks <= n * sum && rank <= n
    ensures ranks + rank * x <= n * (sum + x)
  {
    MulAtLeast(n, rank, x);
    MulDistribute(sum, x, n);
  }

  lemma {:induction false} RankSumBound(xs: seq<int>, n: nat)
    requires |xs| <= n && forall x :: x in xs ==> 0 <= x
    ensures RankSum(xs) <= n * Sum(xs)
  {
    if xs != [] {
      var k := |xs| - 1;
      assert xs[k] in xs && forall x :: x in xs[..k] ==> x in xs;
      RankSumBound(xs[..k], n);
      RankBoundStep(RankSum(xs[..k]), Sum(xs[..k]), |xs|, n, xs[k]);
    }
  }

  lemma RangeArithmetic(num: int, ranks: int, n: nat, s: int)
    requires n > 0 && s > 0 && num == 2 * ranks - (n + 1) * s && ranks <= n * s
    ensures n * s > 0 && n * num <= (n - 1) * (n * s)
  {
    MulAtLeast(n, 1, s);
    assert num <= (n - 1) * s by {
      assert 2 * (n * s) - (n + 1) * s == (n - 1) * s;
    }
    MulAtLeast((n - 1) * s, num, n);
    assert ((n - 1) * s) * n == (n - 1) * (n * s);
  }

  /** For holdings that are not negative it lies between 0 and (n - 1) / n. */
  lemma CoefficientInRange(xs: seq<int>)
    requires forall x :: x in xs ==> 0 <= x
    ensures Coefficient(xs).den > 0 && 0 <= Coefficient(xs).num
    ensures |xs| > 0 ==> |xs| * Coefficient(xs).num <= (|xs| - 1) * Coefficient(xs).den
  {
    SumNonNegative(xs);
    if |xs| > 0 && Sum(xs) != 0 {
      CoefficientIsPairwise(xs);
      SumIgnoresOrder(xs, Sorted(xs));
      forall x | x in Sorted(xs)
        ensures x in xs
      {
        assert x in multiset(Sorted(xs));
      }
      RankSumBound(Sorted(xs), |xs|);
      hide Sum, RankSum, PairSum, Sorted;
      RangeArithmetic(Coefficient(xs).num, RankSum(Sorted(xs)), |xs|, Sum(xs));
    }
  }
}
