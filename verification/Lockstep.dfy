/** All nodes moving together: the shares they hold always stand for the running maximum. */
module Lockstep {
  import opened Arithmetic
  import opened Field
  import Radix
  import opened Sharing
  import opened Operations
  import opened Worker

  /** Elements of at most sixteen bytes; the default prime is well below. */
  const MAX_MODULUS := 0x1_0000_0000_0000_0000_0000_0000_0000_0000

  /** What the coordinator deals: one task per node. */
  datatype Deal = Deal(p: Modulus, tasks: seq<Task>) {
    ghost function Parties(): nat {
      |tasks|
    }

    ghost function Inputs(): nat
      requires tasks != []
    {
      |tasks[0].slots|
    }

    ghost function Triples(): nat
      requires tasks != []
    {
      |tasks[0].triples|
    }

    /** Tasks of one session differ only in the shares they carry. */
    ghost predicate Shaped() {
      && |tasks| >= 2
      && Inputs() > 0
      && p <= MAX_MODULUS
      && forall j :: 0 <= j < |tasks| ==>
           && tasks[j].op == tasks[0].op && tasks[j].bitLen == tasks[0].bitLen
           && |tasks[j].slots| == Inputs() && |tasks[j].triples| == Triples()
           && Elements(tasks[j].slots, p)
    }

    ghost function Column(s: nat): seq<int>
      requires Shaped() && s < Inputs()
    {
      seq(|tasks|, j requires 0 <= j < |tasks| => tasks[j].slots[s])
    }

    ghost function TripleColumn(c: nat): seq<SharedTriple>
      requires Shaped() && c < Triples()
    {
      seq(|tasks|, j requires 0 <= j < |tasks| => tasks[j].triples[c])
    }

    ghost predicate Valid() {
      && Shaped()
      && forall c :: 0 <= c < Triples() ==> ValidTriple(TripleColumn(c), p)
    }

    /** The secret inputs that the shares stand for. */
    ghost function Secrets(): (xs: seq<int>)
      requires Shaped()
      ensures |xs| == Inputs()
    {
      seq(Inputs(), s requires 0 <= s < Inputs() => Secret(Column(s), p))
    }
  }

  // ---- What the fold computes on plain values ----

  /** The compare-and-select fold over the first i inputs. */
  function FoldSelect(xs: seq<int>, i: nat, p: Modulus): int
    requires 1 <= i <= |xs|
  {
    if i == 1 then xs[0]
    else
      var best := FoldSelect(xs, i - 1, p);
      if GreaterBit(Sub(best, xs[i - 1], p), p) == 1 then best else xs[i - 1]
  }

  function MaxOf(xs: seq<int>): int
    requires xs != []
  {
    if |xs| == 1 then xs[0]
    else
      var m := MaxOf(xs[..|xs| - 1]);
      if m > xs[|xs| - 1] then m else xs[|xs| - 1]
  }

  lemma {:induction false} MaxOfIsMaximum(xs: seq<int>)
    requires xs != []
    ensures MaxOf(xs) in xs
    ensures forall x :: x in xs ==> x <= MaxOf(xs)
  {
    if |xs| > 1 {
      var front := xs[..|xs| - 1];
      MaxOfIsMaximum(front);
      assert xs == front + [xs[|xs| - 1]];
    }
  }

  /**
   * The comparison is right exactly when the difference lies between minus the upper half
   * and the lower half of the field.
   */
  lemma GreaterBitExact(x: int, y: int, p: Modulus)
    requires Element(x, p) && Element(y, p)
    ensures (GreaterBit(Sub(x, y, p), p) == 1 <==> x > y) <==> -(p - p / 2) <= x - y < p / 2
  {
    if x >= y {
      ReduceElement(x - y, p);
    } else {
      DivModUnique(x - y, p, -1, x - y + p);
    }
  }

  /** The last place where the maximum stands. */
  function LastMax(xs: seq<int>): (j: nat)
    requires xs != []
    ensures j < |xs| && xs[j] == MaxOf(xs)
    ensures forall k :: j < k < |xs| ==> xs[k] < MaxOf(xs)
  {
    var k := |xs| - 1;
    if k == 0 || MaxOf(xs[..k]) <= xs[k] then k else LastMax(xs[..k])
  }

  ghost predicate AllElements(xs: seq<int>, p: Modulus) {
    forall k :: 0 <= k < |xs| ==> Element(xs[k], p)
  }

  /** Every input is less than half the modulus below the maximum. */
  ghost predicate Close(xs: seq<int>, p: Modulus)
    requires xs != []
  {
    forall x :: x in xs ==> MaxOf(xs) - x < p / 2
  }

  /** The fold always holds one of the inputs it has seen. */
  lemma {:induction false} FoldSelectPicks(xs: seq<int>, i: nat, p: Modulus)
    requires 1 <= i <= |xs|
    ensures FoldSelect(xs, i, p) in xs[..i]
  {
    if i > 1 {
      FoldSelectPicks(xs, i - 1, p);
      assert xs[..i] == xs[..i - 1] + [xs[i - 1]];
    }
  }

  lemma {:induction false} PrefixMax(xs: seq<int>, i: nat)
    requires 1 <= i <= |xs|
    ensures MaxOf(xs[..i]) <= MaxOf(xs)
  {
    MaxOfIsMaximum(xs[..i]);
    MaxOfIsMaximum(xs);
    assert MaxOf(xs[..i]) in xs;
  }

  /** Inputs close to their maximum fold to it. */
  lemma {:induction false} FoldSelectIsMax(xs: seq<int>, i: nat, p: Modulus)
    requires 1 <= i <= |xs| && AllElements(xs, p) && Close(xs, p)
    ensures FoldSelect(xs, i, p) == MaxOf(xs[..i])
  {
    if i > 1 {
      hide GreaterBit, Sub;
      FoldSelectIsMax(xs, i - 1, p);
      FoldSelectPicks(xs, i - 1, p);
      assert xs[..i][..i - 1] == xs[..i - 1];
      PrefixMax(xs, i - 1);
      MaxOfIsMaximum(xs);
      var best := FoldSelect(xs, i - 1, p);
      assert xs[i - 1] in xs && best in xs;
      GreaterBitExact(best, xs[i - 1], p);
    }
  }

  /** Once the fold holds the maximum, the next input takes its place exactly when it is too far below. */
  lemma MaxIsKept(xs: seq<int>, i: nat, p: Modulus)
    requires 1 <= i < |xs| && AllElements(xs, p) && FoldSelect(xs, i, p) == MaxOf(xs)
    ensures FoldSelect(xs, i + 1, p) == MaxOf(xs) <==> MaxOf(xs) - xs[i] < p / 2
  {
    MaxOfIsMaximum(xs);
    FoldSelectPicks(xs, i, p);
    assert xs[i] in xs;
    if xs[i] == MaxOf(xs) {
      ReduceElement(0, p);
    } else {
      GreaterBitExact(MaxOf(xs), xs[i], p);
    }
  }

  /** A maximum that is lost does not come back unless it is seen again. */
  lemma {:induction false} LostMaxStaysLost(xs: seq<int>, i: nat, j: nat, p: Modulus)
    requires 1 <= i <= j <= |xs| && FoldSelect(xs, i, p) != MaxOf(xs)
    requires forall k :: i <= k < j ==> xs[k] != MaxOf(xs)
    ensures FoldSelect(xs, j, p) != MaxOf(xs)
  {
    if i < j {
      LostMaxStaysLost(xs, i, j - 1, p);
    }
  }

  /**
   * Exactly when the fold over the inputs in the given order is their maximum: what it holds when it comes to
   * the last place of the maximum is at most the upper half of the modulus below it, and every later input
   * is less than the lower half below it.
   */
  lemma FoldSelectExact(xs: seq<int>, p: Modulus)
    requires xs != [] && AllElements(xs, p)
    ensures FoldSelect(xs, |xs|, p) == MaxOf(xs) <==>
            && (LastMax(xs) > 0 ==> MaxOf(xs) - FoldSelect(xs, LastMax(xs), p) <= p - p / 2)
            && forall k :: LastMax(xs) < k < |xs| ==> MaxOf(xs) - xs[k] < p / 2
  {
    var j := LastMax(xs);
    TakesMax(xs, j, p);
    if FoldSelect(xs, j + 1, p) != MaxOf(xs) {
      LostMaxStaysLost(xs, j + 1, |xs|, p);
    } else {
      KeepsMax(xs, j, |xs|, p);
    }
  }

  lemma TakesMax(xs: seq<int>, j: nat, p: Modulus)
    requires j < |xs| && AllElements(xs, p) && xs[j] == MaxOf(xs)
    ensures FoldSelect(xs, j + 1, p) == MaxOf(xs) <==> (j > 0 ==> MaxOf(xs) - FoldSelect(xs, j, p) <= p - p / 2)
  {
    if j > 0 {
      FoldSelectPicks(xs, j, p);
      MaxOfIsMaximum(xs);
      var best := FoldSelect(xs, j, p);
      assert best in xs;
      GreaterBitExact(best, xs[j], p);
    }
  }

  lemma {:induction false} KeepsMax(xs: seq<int>, j: nat, n: nat, p: Modulus)
    requires j < n <= |xs| && AllElements(xs, p) && FoldSelect(xs, j + 1, p) == MaxOf(xs)
    requires forall k :: j < k < |xs| ==> xs[k] < MaxOf(xs)
    ensures FoldSelect(xs, n, p) == MaxOf(xs) <==> forall k :: j < k < n ==> MaxOf(xs) - xs[k] < p / 2
  {
    if n > j + 1 {
      KeepsMax(xs, j, n - 1, p);
      if FoldSelect(xs, n - 1, p) == MaxOf(xs) {
        MaxIsKept(xs, n - 1, p);
      } else {
        LostMaxStaysLost(xs, n - 1, n, p);
      }
    }
  }

  lemma SameMax(xs: seq<int>, ys: seq<int>)
    requires xs != [] && multiset(xs) == multiset(ys)
    ensures ys != [] && MaxOf(ys) == MaxOf(xs)
    ensures forall x :: x in xs <==> x in ys
  {
    assert forall x :: x in xs <==> x in multiset(xs);
    assert forall x :: x in ys <==> x in multiset(ys);
    assert xs[0] in ys;
    MaxOfIsMaximum(xs);
    MaxOfIsMaximum(ys);
  }

  /**
   * The maximum is right in every order of the inputs if and only if every input is less than half the
   * modulus below it.
   */
  lemma MaxExactly(xs: seq<int>, p: Modulus)
    requires xs != [] && AllElements(xs, p)
    ensures (forall ys: seq<int> :: multiset(ys) == multiset(xs) ==>
               |ys| == |xs| && FoldSelect(ys, |xs|, p) == MaxOf(xs))
            <==> Close(xs, p)
  {
    if Close(xs, p) {
      forall ys: seq<int> | multiset(ys) == multiset(xs)
        ensures |ys| == |xs| && FoldSelect(ys, |xs|, p) == MaxOf(xs)
      {
        assert |multiset(ys)| == |ys| && |multiset(xs)| == |xs|;
        SameMax(xs, ys);
        assert ys[..|ys|] == ys;
        forall k | 0 <= k < |ys|
          ensures Element(ys[k], p)
        {
          assert ys[k] in ys;
        }
        FoldSelectIsMax(ys, |ys|, p);
      }
    } else {
      var k :| 0 <= k < |xs| && MaxOf(xs) - xs[k] >= p / 2;
      var ys := xs[..k] + xs[k + 1..] + [xs[k]];
      assert xs == xs[..k] + [xs[k]] + xs[k + 1..];
      assert multiset(ys) == multiset(xs);
      SameMax(xs, ys);
      forall i | 0 <= i < |ys|
        ensures Element(ys[i], p)
      {
        assert ys[i] in ys;
      }
      FarLastIsWrong(ys, p);
    }
  }

  /** An input too far below the maximum, taken last, is taken for the maximum or follows a wrong one. */
  lemma FarLastIsWrong(ys: seq<int>, p: Modulus)
    requires ys != [] && AllElements(ys, p) && MaxOf(ys) - ys[|ys| - 1] >= p / 2
    ensures FoldSelect(ys, |ys|, p) != MaxOf(ys)
  {
    if |ys| > 1 {
      var i := |ys| - 1;
      if FoldSelect(ys, i, p) == MaxOf(ys) {
        MaxIsKept(ys, i, p);
      } else {
        LostMaxStaysLost(ys, i, i + 1, p);
      }
    }
  }

  // ---- One round of everybody ----

  ghost predicate AllFit(d: Deal, ls: seq<Local>) {
    |ls| == |d.tasks| && forall j :: 0 <= j < |ls| ==> Fits(d.tasks[j], ls[j])
  }

  ghost predicate AllBusy(ls: seq<Local>) {
    forall j :: 0 <= j < |ls| ==> ls[j].Busy()
  }

  ghost predicate IsOthers(s: set<nat>, n: nat, me: nat) {
    forall j: nat :: j in s <==> j < n && j != me
  }

  /** What node me gathers when everybody's broadcast arrives. */
  ghost function Inbox(d: Deal, ls: seq<Local>, me: nat): (m: map<nat, seq<Byte>>)
    requires AllFit(d, ls) && AllBusy(ls)
    ensures IsOthers(m.Keys, |ls|, me)
  {
    map j: nat | 0 <= j < |ls| && j != me :: Payload(d.tasks[j], ls[j], d.p)
  }

  ghost function Round(d: Deal, ls: seq<Local>): (ls': seq<Local>)
    requires AllFit(d, ls) && AllBusy(ls)
    ensures AllFit(d, ls')
  {
    seq(|ls|, j requires 0 <= j < |ls| => Advance(j, d.tasks[j], ls[j], Gathers(Inbox(d, ls, j)), d.p))
  }

  /** The nodes' states after k rounds in lockstep. */
  ghost function Lock(d: Deal, k: nat): (ls: seq<Local>)
    ensures AllFit(d, ls)
  {
    if k == 0 then seq(|d.tasks|, j requires 0 <= j < |d.tasks| => Start(d.tasks[j], d.p))
    else
      var ls := Lock(d, k - 1);
      if AllBusy(ls) then Round(d, ls) else ls
  }

  // ---- Every node opens the same value ----

  lemma {:induction false} SetSumOthers(vals: seq<int>, n: nat, me: nat, s: set<nat>, m: map<nat, int>)
    requires n <= |vals| && s <= m.Keys && IsOthers(s, n, me)
    requires forall j :: j in s ==> m[j] == vals[j]
    ensures SetSum(s, m) == Sum(vals[..n]) - (if me < n then vals[me] else 0)
  {
    if n == 0 {
      assert s == {};
    } else {
      assert vals[..n] == vals[..n - 1] + [vals[n - 1]];
      SumSnoc(vals[..n - 1], vals[n - 1]);
      if me != n - 1 {
        SetSumRemove(s, m, n - 1);
      }
      SetSumOthers(vals, n - 1, me, s - {n - 1}, m);
      assert me == n - 1 ==> s - {n - 1} == s;
    }
  }

  lemma OpenedIsSecret(vals: seq<int>, me: nat, m: map<nat, int>, p: Modulus)
    requires me < |vals| && IsOthers(m.Keys, |vals|, me)
    requires forall j :: j in m ==> m[j] == vals[j]
    ensures Opened(vals[me], m, p) == Secret(vals, p)
  {
    SetSumOthers(vals, |vals|, me, m.Keys, m);
    assert vals[..|vals|] == vals;
  }

  // ---- The comparison round ----

  ghost function Runnings(ls: seq<Local>): (r: seq<int>)
    requires AllBusy(ls)
  {
    seq(|ls|, j requires 0 <= j < |ls| => (assert ls[j].Busy(); ls[j].running))
  }

  /** Everybody is about to compare the running shares with slot i. */
  ghost predicate AtCompare(d: Deal, ls: seq<Local>, i: nat)
    requires d.Shaped()
  {
    && AllFit(d, ls) && AllBusy(ls)
    && 1 <= i < d.Inputs()
    && (forall j :: 0 <= j < |ls| ==> ls[j].Comparing? && ls[j].i == i)
    && Secret(Runnings(ls), d.p) == FoldSelect(d.Secrets(), i, d.p)
  }

  ghost function OpenedBit(d: Deal, i: nat): int
    requires d.Shaped() && 1 <= i < d.Inputs()
  {
    GreaterBit(Sub(FoldSelect(d.Secrets(), i, d.p), d.Secrets()[i], d.p), d.p)
  }

  /** Everybody is about to multiply the comparison bit by the difference. */
  ghost predicate AtSelect(d: Deal, ls: seq<Local>, i: nat)
    requires d.Shaped()
  {
    && AllFit(d, ls) && AllBusy(ls)
    && 1 <= i < d.Inputs() && i <= d.Triples()
    && (forall j :: 0 <= j < |ls| ==>
          ls[j].Multiplying? && ls[j].i == i && ls[j].bit == if j == 0 then OpenedBit(d, i) else 0)
    && Secret(Runnings(ls), d.p) == FoldSelect(d.Secrets(), i, d.p)
  }

  ghost function Diffs(d: Deal, ls: seq<Local>, i: nat): (r: seq<int>)
    requires d.Shaped() && AllFit(d, ls) && AllBusy(ls) && i < d.Inputs()
  {
    SubShares(Runnings(ls), d.Column(i), d.p)
  }

  lemma DiffsSecret(d: Deal, ls: seq<Local>, i: nat)
    requires d.Shaped() && AllFit(d, ls) && AllBusy(ls) && 1 <= i < d.Inputs()
    requires Secret(Runnings(ls), d.p) == FoldSelect(d.Secrets(), i, d.p)
    ensures Cong(Sum(Diffs(d, ls, i)), FoldSelect(d.Secrets(), i, d.p) - d.Secrets()[i], d.p)
    ensures Secret(Diffs(d, ls, i), d.p) == Sub(FoldSelect(d.Secrets(), i, d.p), d.Secrets()[i], d.p)
  {
    hide FoldSelect;
    var xs, ys := Runnings(ls), d.Column(i);
    SubSharesSum(xs, ys, d.p);
    CongSub(Sum(xs), FoldSelect(d.Secrets(), i, d.p), Sum(ys), d.Secrets()[i], d.p);
  }

  /** In the comparison round every node learns the same bit; only node 0 keeps it. */
  lemma CompareRound(d: Deal, ls: seq<Local>, i: nat, j: nat)
    requires d.Shaped() && AtCompare(d, ls, i) && j < |ls|
    ensures CompareSpec(Diffs(d, ls, i)[j], j, Gathers(Inbox(d, ls, j)), d.p)
         == Share(if j == 0 then OpenedBit(d, i) else 0)
  {
    hide FoldSelect, SetSum;
    var vals := Diffs(d, ls, i);
    var m := Decoded(Inbox(d, ls, j), d.p);
    forall k: nat | k < |vals| && k != j
      ensures m[k] == vals[k]
    {
      assert Inbox(d, ls, j)[k] == Bytes(vals[k]);
      FromBytesBytes(vals[k], d.p);
    }
    OpenedIsSecret(vals, j, m, d.p);
    DiffsSecret(d, ls, i);
  }

  // ---- The multiplication round ----

  ghost function Bits(ls: seq<Local>): (r: seq<int>)
    requires forall j :: 0 <= j < |ls| ==> ls[j].Multiplying?
  {
    seq(|ls|, j requires 0 <= j < |ls| => ls[j].bit)
  }

  lemma {:induction false} SumOneHot(xs: seq<int>, b: int)
    requires xs != [] && xs[0] == b && forall j :: 1 <= j < |xs| ==> xs[j] == 0
    ensures Sum(xs) == b
  {
    if |xs| > 1 {
      SumOneHot(xs[..|xs| - 1], b);
    } else {
      assert Sum(xs[..0]) == 0;
    }
  }

  /** The masked values of one factor, whose secret is the factor minus the triple's part. */
  lemma MaskedSecret(xs: seq<int>, masks: seq<int>, x: int, p: Modulus)
    requires |xs| == |masks| && Cong(Sum(xs), x, p)
    ensures Cong(Secret(SubShares(xs, masks, p), p), x - Sum(masks), p)
  {
    SubSharesSum(xs, masks, p);
    CongSub(Sum(xs), x, Sum(masks), Sum(masks), p);
  }

  lemma BytesShort(x: int, p: Modulus)
    requires Element(x, p) && p <= MAX_MODULUS
    ensures |Bytes(x)| <= 16
  {
    assert Radix.Pow(256, 4) == 0x1_0000_0000;
    Radix.PowAdd(256, 4, 4);
    Radix.PowAdd(256, 8, 8);
    BytesLength(x, 16);
  }

  /** What one node gets out of the multiplication round. */
  lemma MulRound(d: Deal, ls: seq<Local>, i: nat, j: nat, dd: int, ee: int)
    requires d.Shaped() && AtSelect(d, ls, i) && j < |ls|
    requires dd == Secret(SubShares(Bits(ls), As(d.TripleColumn(i - 1)), d.p), d.p)
    requires ee == Secret(SubShares(Diffs(d, ls, i), Bs(d.TripleColumn(i - 1)), d.p), d.p)
    ensures MulSpec(ls[j].bit, Diffs(d, ls, i)[j], j, d.tasks[j].triples[i - 1], Gathers(Inbox(d, ls, j)), d.p)
         == Share(MulShares(dd, ee, d.TripleColumn(i - 1), d.p)[j])
  {
    hide FoldSelect, SetSum, MulFinalize, Opened, FirstsOf, SecondsOf, DecodePair, EncodePair, Bytes, Reduce;
    var ts := d.TripleColumn(i - 1);
    var dv, ev := SubShares(Bits(ls), As(ts), d.p), SubShares(Diffs(d, ls, i), Bs(ts), d.p);
    var pairs := DecodeAll(Inbox(d, ls, j));
    forall k: nat | k < |ls| && k != j
      ensures pairs[k] == Pair(Bytes(dv[k]), Bytes(ev[k]))
    {
      assert Inbox(d, ls, j)[k] == EncodePair(Bytes(dv[k]), Bytes(ev[k]));
      BytesShort(dv[k], d.p);
      BytesShort(ev[k], d.p);
      DecodePairEncodePair(Bytes(dv[k]), Bytes(ev[k]));
    }
    OpenedPairs(dv, ev, j, pairs, d.p);
  }

  lemma OpenedPairs(dv: seq<int>, ev: seq<int>, j: nat, pairs: map<nat, PairResult>, p: Modulus)
    requires |dv| == |ev| && j < |dv| && IsOthers(pairs.Keys, |dv|, j)
    requires Elements(dv, p) && Elements(ev, p)
    requires forall k :: k in pairs ==> pairs[k] == Pair(Bytes(dv[k]), Bytes(ev[k]))
    ensures AllPairs(pairs)
    ensures Opened(dv[j], FirstsOf(pairs, p), p) == Secret(dv, p)
    ensures Opened(ev[j], SecondsOf(pairs, p), p) == Secret(ev, p)
  {
    hide Bytes, FromBytes, SetSum, Reduce, Opened, Secret;
    forall k: nat | k < |dv| && k != j
      ensures FirstsOf(pairs, p)[k] == dv[k] && SecondsOf(pairs, p)[k] == ev[k]
    {
      FromBytesBytes(dv[k], p);
      FromBytesBytes(ev[k], p);
    }
    OpenedIsSecret(dv, j, FirstsOf(pairs, p), p);
    OpenedIsSecret(ev, j, SecondsOf(pairs, p), p);
  }

  /** Opening the masked factors and finalizing shares the product of the factors' secrets. */
  lemma ProductSecret(xs: seq<int>, ys: seq<int>, x: int, y: int, ts: seq<SharedTriple>, p: Modulus)
    requires |xs| == |ys| == |ts| > 0 && ValidTriple(ts, p) && Cong(Sum(xs), x, p) && Cong(Sum(ys), y, p)
    ensures
      var d := Secret(SubShares(xs, As(ts), p), p);
      var e := Secret(SubShares(ys, Bs(ts), p), p);
      Cong(Sum(MulShares(d, e, ts, p)), x * y, p)
  {
    hide Cong, Sum, MulShares, SubShares, Secret;
    MaskedSecret(xs, As(ts), x, p);
    MaskedSecret(ys, Bs(ts), y, p);
    BeaverMultiplies(x, y, Secret(SubShares(xs, As(ts), p), p), Secret(SubShares(ys, Bs(ts), p), p), ts, p);
  }

  /** Adding the product of the bit and the difference to x leaves best or x. */
  lemma SelectedValue(xs: seq<int>, zs: seq<int>, x: int, bit: int, best: int, p: Modulus)
    requires |xs| == |zs| && Element(x, p) && Element(best, p) && (bit == 0 || bit == 1)
    requires Secret(xs, p) == x && Cong(Sum(zs), bit * (best - x), p)
    ensures Secret(AddShares(xs, zs, p), p) == if bit == 1 then best else x
  {
    AddSharesSum(xs, zs, p);
    CongAdd(Sum(xs), x, Sum(zs), bit * (best - x), p);
    var out := if bit == 1 then best else x;
    assert x + bit * (best - x) == out;
    ReduceElement(out, p);
  }

  /** Compare-and-select on shares: the new shares stand for one of the two secrets. */
  lemma SelectShares(runs: seq<int>, col: seq<int>, bits: seq<int>, ts: seq<SharedTriple>, bit: int, p: Modulus)
    requires |runs| == |col| == |bits| == |ts| > 0 && ValidTriple(ts, p)
    requires Sum(bits) == bit && (bit == 0 || bit == 1)
    ensures
      var diffs := SubShares(runs, col, p);
      var dd := Secret(SubShares(bits, As(ts), p), p);
      var ee := Secret(SubShares(diffs, Bs(ts), p), p);
      Secret(AddShares(col, MulShares(dd, ee, ts, p), p), p) == if bit == 1 then Secret(runs, p) else Secret(col, p)
  {
    hide Cong, Sum, MulShares, SubShares, AddShares, Reduce, Secret, As, Bs, Cs;
    var best, x, diffs := Secret(runs, p), Secret(col, p), SubShares(runs, col, p);
    CongReflexive(bit, p);
    SubSharesSum(runs, col, p);
    CongSymmetric(best, Sum(runs), p);
    CongSymmetric(x, Sum(col), p);
    CongSub(Sum(runs), best, Sum(col), x, p);
    CongTransitive(Sum(diffs), Sum(runs) - Sum(col), best - x, p);
    ProductSecret(bits, diffs, bit, best - x, ts, p);
    var dd, ee := Secret(SubShares(bits, As(ts), p), p), Secret(SubShares(diffs, Bs(ts), p), p);
    SelectedValue(col, MulShares(dd, ee, ts, p), x, bit, best, p);
  }

  /** The new running shares stand for the selected value. */
  lemma SelectSecret(d: Deal, ls: seq<Local>, i: nat, dd: int, ee: int)
    requires d.Valid() && AtSelect(d, ls, i)
    requires dd == Secret(SubShares(Bits(ls), As(d.TripleColumn(i - 1)), d.p), d.p)
    requires ee == Secret(SubShares(Diffs(d, ls, i), Bs(d.TripleColumn(i - 1)), d.p), d.p)
    ensures Secret(AddShares(d.Column(i), MulShares(dd, ee, d.TripleColumn(i - 1), d.p), d.p), d.p)
         == FoldSelect(d.Secrets(), i + 1, d.p)
  {
    hide Cong, Reduce, Sum, MulShares, SubShares, AddShares, Secret, Sub;
    SumOneHot(Bits(ls), OpenedBit(d, i));
    SelectShares(Runnings(ls), d.Column(i), Bits(ls), d.TripleColumn(i - 1), OpenedBit(d, i), d.p);
  }

  // ---- Whole computations in lockstep ----

  ghost predicate AllFinished(ls: seq<Local>) {
    forall j :: 0 <= j < |ls| ==> ls[j].Finished?
  }

  ghost predicate AllAborted(ls: seq<Local>) {
    forall j :: 0 <= j < |ls| ==> ls[j].Aborted?
  }

  /** The result shares that the nodes submit. */
  ghost function Values(ls: seq<Local>): (r: seq<int>)
    requires AllFinished(ls)
  {
    seq(|ls|, j requires 0 <= j < |ls| => (assert ls[j].Finished?; ls[j].value))
  }

  ghost predicate BitsOk(d: Deal)
    requires d.Shaped()
  {
    BitLenInRange(BitLen(d.tasks[0]))
  }

  lemma CompareStep(d: Deal, ls: seq<Local>, i: nat)
    requires d.Shaped() && AtCompare(d, ls, i)
    ensures d.tasks[0].op.OpMax? && i <= d.Triples() ==> AtSelect(d, Round(d, ls), i)
    ensures d.tasks[0].op.OpMax? && i > d.Triples() ==> AllAborted(Round(d, ls))
    ensures d.tasks[0].op.OpComparison? ==>
      AllFinished(Round(d, ls)) && Sum(Values(Round(d, ls))) == OpenedBit(d, i)
  {
    hide CompareSpec, FoldSelect, Secret, Sub, Inbox, OpenedBit, NextSlot;
    var ls' := Round(d, ls);
    forall j: nat | j < |ls|
      ensures ls'[j] == Advance(j, d.tasks[j], ls[j], Gathers(Inbox(d, ls, j)), d.p)
      ensures CompareSpec(Diffs(d, ls, i)[j], j, Gathers(Inbox(d, ls, j)), d.p)
           == Share(if j == 0 then OpenedBit(d, i) else 0)
    {
      CompareRound(d, ls, i, j);
    }
    if d.tasks[0].op.OpMax? && i <= d.Triples() {
      assert Runnings(ls') == Runnings(ls);
    }
    if d.tasks[0].op.OpComparison? {
      SumOneHot(Values(ls'), OpenedBit(d, i));
    }
  }

  lemma SelectStep(d: Deal, ls: seq<Local>, i: nat)
    requires d.Valid() && d.tasks[0].op.OpMax? && AtSelect(d, ls, i)
    ensures i + 1 < d.Inputs() ==> AtCompare(d, Round(d, ls), i + 1)
    ensures i + 1 == d.Inputs() ==>
      AllFinished(Round(d, ls)) && Secret(Values(Round(d, ls)), d.p) == FoldSelect(d.Secrets(), i + 1, d.p)
  {
    hide MulSpec, FoldSelect, Secret, MulShares, Inbox, OpenedBit;
    var ls' := Round(d, ls);
    var ts := d.TripleColumn(i - 1);
    var dd := Secret(SubShares(Bits(ls), As(ts), d.p), d.p);
    var ee := Secret(SubShares(Diffs(d, ls, i), Bs(ts), d.p), d.p);
    var sums := AddShares(d.Column(i), MulShares(dd, ee, ts, d.p), d.p);
    forall j: nat | j < |ls|
      ensures ls'[j] == NextSlot(d.tasks[j], i + 1, sums[j])
    {
      MulRound(d, ls, i, j, dd, ee);
      assert ls'[j] == Advance(j, d.tasks[j], ls[j], Gathers(Inbox(d, ls, j)), d.p);
      assert sums[j] == Add(d.tasks[j].slots[i], MulShares(dd, ee, ts, d.p)[j], d.p);
    }
    SelectSecret(d, ls, i, dd, ee);
    if i + 1 < d.Inputs() {
      assert Runnings(ls') == sums;
    } else {
      assert Values(ls') == sums;
    }
  }

  lemma LockStart(d: Deal)
    requires d.Shaped() && d.Inputs() >= 2 && BitsOk(d) && (d.tasks[0].op.OpMax? || d.tasks[0].op.OpComparison?)
    ensures AtCompare(d, Lock(d, 0), 1)
  {
    hide Secret;
    var ls := Lock(d, 0);
    assert Runnings(ls) == d.Column(0);
  }

  lemma CompareNext(d: Deal, k: nat, i: nat)
    requires d.Shaped() && AtCompare(d, Lock(d, k), i)
    ensures d.tasks[0].op.OpMax? && i <= d.Triples() ==> AtSelect(d, Lock(d, k + 1), i)
    ensures d.tasks[0].op.OpMax? && i > d.Triples() ==> AllAborted(Lock(d, k + 1))
    ensures d.tasks[0].op.OpComparison? ==>
      AllFinished(Lock(d, k + 1)) && Sum(Values(Lock(d, k + 1))) == OpenedBit(d, i)
  {
    var ls := Lock(d, k);
    assert AllBusy(ls);
    CompareStep(d, ls, i);
    hide AtCompare, AtSelect, AllBusy, OpenedBit, Round, AllAborted, AllFinished;
    assert Lock(d, k + 1) == Round(d, ls);
  }

  lemma SelectNext(d: Deal, k: nat, i: nat)
    requires d.Valid() && d.tasks[0].op.OpMax? && AtSelect(d, Lock(d, k), i)
    ensures i + 1 < d.Inputs() ==> AtCompare(d, Lock(d, k + 1), i + 1)
    ensures i + 1 == d.Inputs() ==>
      AllFinished(Lock(d, k + 1)) && Secret(Values(Lock(d, k + 1)), d.p) == FoldSelect(d.Secrets(), i + 1, d.p)
  {
    var ls := Lock(d, k);
    assert AllBusy(ls);
    SelectStep(d, ls, i);
    hide AtCompare, AtSelect, AllBusy, Round, AllFinished, FoldSelect, Secret;
    assert Lock(d, k + 1) == Round(d, ls);
  }

  lemma {:induction false} LockCompare(d: Deal, i: nat)
    requires d.Valid() && d.tasks[0].op.OpMax? && BitsOk(d)
    requires 1 <= i < d.Inputs() && i <= d.Triples() + 1
    ensures AtCompare(d, Lock(d, 2 * i - 2), i)
  {
    hide AtCompare, AtSelect, Lock, FoldSelect, Secret, AllFinished, AllAborted, OpenedBit;
    if i == 1 {
      LockStart(d);
    } else {
      LockCompare(d, i - 1);
      CompareNext(d, 2 * i - 4, i - 1);
      SelectNext(d, 2 * i - 3, i - 1);
    }
  }

  lemma LockSelect(d: Deal, i: nat)
    requires d.Valid() && d.tasks[0].op.OpMax? && BitsOk(d)
    requires 1 <= i < d.Inputs() && i <= d.Triples()
    ensures AtSelect(d, Lock(d, 2 * i - 1), i)
  {
    hide AtCompare, AtSelect, Lock, AllFinished, AllAborted, OpenedBit;
    LockCompare(d, i);
    CompareNext(d, 2 * i - 2, i);
  }

  /** The triple that a node is about to use up, if any. */
  function TripleInUse(l: Local): int {
    if l.Multiplying? then l.i - 1 else -1
  }

  /** Every second round of a maximum uses a triple, the first of them triple 0, and each next one the next triple. */
  lemma TriplesUsedInTurn(d: Deal, r: nat, j: nat)
    requires d.Valid() && d.tasks[0].op.OpMax? && BitsOk(d) && d.Inputs() <= d.Triples() + 1
    requires r + 2 < 2 * d.Inputs() && j < |d.tasks|
    ensures TripleInUse(Lock(d, r)[j]) == if r % 2 == 1 then r / 2 else -1
  {
    hide Lock, FoldSelect, Secret;
    if r % 2 == 1 {
      LockSelect(d, r / 2 + 1);
    } else {
      LockCompare(d, r / 2 + 1);
    }
  }

  /** With a triple for every comparison the fold ends after two rounds per further input. */
  lemma LockMaxFinishes(d: Deal)
    requires d.Valid() && d.tasks[0].op.OpMax? && BitsOk(d) && d.Inputs() <= d.Triples() + 1
    ensures AllFinished(Lock(d, 2 * d.Inputs() - 2))
    ensures Secret(Values(Lock(d, 2 * d.Inputs() - 2)), d.p) == FoldSelect(d.Secrets(), d.Inputs(), d.p)
  {
    hide AtCompare, AtSelect, Lock, FoldSelect, Secret, AllFinished;
    var i := d.Inputs() - 1;
    if i == 0 {
      LockMaxSingle(d);
    } else {
      LockSelect(d, i);
      SelectNext(d, 2 * i - 1, i);
    }
  }

  lemma LockMaxSingle(d: Deal)
    requires d.Shaped() && d.tasks[0].op.OpMax? && d.Inputs() == 1
    ensures AllFinished(Lock(d, 0))
    ensures Secret(Values(Lock(d, 0)), d.p) == FoldSelect(d.Secrets(), 1, d.p)
  {
    hide Secret;
    assert Values(Lock(d, 0)) == d.Column(0);
  }

  /** One input too many and every node gives up in the round after the last triple. */
  lemma LockMaxExhausts(d: Deal)
    requires d.Valid() && d.tasks[0].op.OpMax? && BitsOk(d) && d.Inputs() > d.Triples() + 1
    ensures AllAborted(Lock(d, 2 * d.Triples() + 1))
  {
    hide AtCompare, AtSelect, Lock, AllAborted, AllFinished, OpenedBit;
    LockCompare(d, d.Triples() + 1);
    CompareNext(d, 2 * d.Triples(), d.Triples() + 1);
  }

  lemma LockComparisonFinishes(d: Deal)
    requires d.Shaped() && d.tasks[0].op.OpComparison? && BitsOk(d) && d.Inputs() >= 2
    ensures AllFinished(Lock(d, 1))
    ensures Sum(Values(Lock(d, 1))) == OpenedBit(d, 1)
  {
    LockStart(d);
    CompareNext(d, 0, 1);
  }

  lemma {:induction false} LocalSumIsSum(slots: seq<int>, p: Modulus)
    requires slots != [] && Elements(slots, p)
    ensures LocalSum(slots, p) == Reduce(Sum(slots), p)
  {
    var k := |slots| - 1;
    if k == 0 {
      ReduceElement(slots[0], p);
      assert slots[..0] == [];
    } else {
      LocalSumIsSum(slots[..k], p);
      AddReduced(Sum(slots[..k]), slots[k], p);
    }
  }

  /** What every node has after adding its first k shares. */
  ghost function Rows(d: Deal, k: nat): (r: seq<int>)
    requires d.Shaped() && 1 <= k <= d.Inputs()
    ensures |r| == |d.tasks|
  {
    seq(|d.tasks|, j requires 0 <= j < |d.tasks| => LocalSum(d.tasks[j].slots[..k], d.p))
  }

  lemma RowsStep(d: Deal, k: nat)
    requires d.Shaped() && 2 <= k <= d.Inputs()
    ensures Rows(d, k) == AddShares(Rows(d, k - 1), d.Column(k - 1), d.p)
  {
    hide Reduce;
    assert forall j :: 0 <= j < |d.tasks| ==> d.tasks[j].slots[..k][..k - 1] == d.tasks[j].slots[..k - 1];
  }

  /** Adding rows first or columns first gives the same total. */
  lemma {:induction false} RowsSecret(d: Deal, k: nat)
    requires d.Shaped() && 1 <= k <= d.Inputs()
    ensures Cong(Sum(Rows(d, k)), Sum(d.Secrets()[..k]), d.p)
  {
    var p, xs := d.p, d.Secrets();
    assert xs[..k] == xs[..k - 1] + [xs[k - 1]];
    SumSnoc(xs[..k - 1], xs[k - 1]);
    if k == 1 {
      assert Rows(d, 1) == d.Column(0);
      assert Sum(xs[..0]) == 0;
    } else {
      hide Cong, Rows, Sum, AddShares, LocalSum;
      RowsSecret(d, k - 1);
      RowsStep(d, k);
      AddSharesSum(Rows(d, k - 1), d.Column(k - 1), p);
      assert Cong(Sum(d.Column(k - 1)), xs[k - 1], p) by {
        CongSymmetric(xs[k - 1], Sum(d.Column(k - 1)), p);
      }
      CongAdd(Sum(Rows(d, k - 1)), Sum(xs[..k - 1]), Sum(d.Column(k - 1)), xs[k - 1], p);
      CongTransitive(Sum(Rows(d, k)), Sum(Rows(d, k - 1)) + Sum(d.Column(k - 1)), Sum(xs[..k]), p);
    }
  }

  lemma LockSumFinishes(d: Deal)
    requires d.Shaped() && (d.tasks[0].op.OpSum? || d.tasks[0].op.OpAverage?)
    ensures AllFinished(Lock(d, 0))
    ensures Secret(Values(Lock(d, 0)), d.p) == Reduce(Sum(d.Secrets()), d.p)
  {
    RowsSecret(d, d.Inputs());
    assert d.Secrets()[..d.Inputs()] == d.Secrets();
    assert forall j :: 0 <= j < |d.tasks| ==> d.tasks[j].slots[..d.Inputs()] == d.tasks[j].slots;
    assert Values(Lock(d, 0)) == Rows(d, d.Inputs());
  }
}
