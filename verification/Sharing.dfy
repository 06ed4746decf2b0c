/** Additive secret sharing and Beaver triples. */
module Sharing {
  import opened Arithmetic
  import opened Field

  predicate Elements(xs: seq<int>, p: Modulus) {
    forall i :: 0 <= i < |xs| ==> Element(xs[i], p)
  }

  /** What a list of shares stands for. */
  function Secret(shares: seq<int>, p: Modulus): (s: int)
    ensures Element(s, p) && Cong(s, Sum(shares), p)
  {
    Reduce(Sum(shares), p)
  }

  datatype ShareResult = Shares(shares: seq<int>) | TooFewParties

  /** The shares dealt for a secret: one drawn element for every party but the last, who gets the rest. */
  predicate Deals(secret: int, random: seq<int>, shares: seq<int>, p: Modulus) {
    && |shares| == |random| + 1 && Elements(shares, p)
    && (forall j :: 0 <= j < |random| ==> shares[j] == random[j])
    && Secret(shares, p) == secret
  }

  /** Splits a secret; random holds the elements drawn for the first n-1 parties. */
  method AdditiveShare(secret: int, n: int, random: seq<int>, p: Modulus) returns (r: ShareResult)
    requires n >= 2 ==> |random| == n - 1
    requires Element(secret, p) && Elements(random, p)
    ensures n < 2 <==> r == TooFewParties
    ensures r.Shares? ==> |r.shares| == n && Elements(r.shares, p) && Secret(r.shares, p) == secret
    ensures r.Shares? ==> forall j :: 0 <= j < n - 1 ==> r.shares[j] == random[j]
    ensures r.Shares? ==> Deals(secret, random, r.shares, p)
  {
    if n < 2 {
      return TooFewParties;
    }
    var shares, acc := [], 0;
    for i := 0 to n - 1
      invariant shares == random[..i]
      invariant Element(acc, p) && Cong(acc, Sum(random[..i]), p)
    {
      assert random[..i + 1] == random[..i] + [random[i]];
      SumSnoc(random[..i], random[i]);
      CongAdd(acc, Sum(random[..i]), random[i], random[i], p);
      shares := shares + [random[i]];
      acc := Add(acc, random[i], p);
    }
    assert random[..n - 1] == random;
    LastShareCompletes(secret, acc, random, p);
    shares := shares + [Sub(secret, acc, p)];
    r := Shares(shares);
  }

  lemma LastShareCompletes(secret: int, acc: int, random: seq<int>, p: Modulus)
    requires Element(secret, p) && Element(acc, p) && Cong(acc, Sum(random), p)
    ensures Secret(random + [Sub(secret, acc, p)], p) == secret
  {
    var last := Sub(secret, acc, p);
    var shares := random + [last];
    hide Reduce, Cong, Sum, Secret, Sub;
    SumSnoc(random, last);
    assert Cong(last, secret - acc, p) by { SubIsCong(secret, acc, p); }
    CongSymmetric(acc, Sum(random), p);
    CongAdd(Sum(random), acc, last, secret - acc, p);
    CongTransitive(Secret(shares, p), Sum(shares), secret, p);
    CongSmall(Secret(shares, p), secret, p);
  }

  lemma SubIsCong(a: int, b: int, p: Modulus)
    ensures Cong(Sub(a, b, p), a - b, p)
  {
  }

  /** Adds the shares up in the field. */
  method AdditiveRecombine(shares: seq<int>, p: Modulus) returns (sum: int)
    ensures sum == Secret(shares, p)
  {
    sum := 0;
    for i := 0 to |shares|
      invariant Element(sum, p) && Cong(sum, Sum(shares[..i]), p)
    {
      assert shares[..i + 1] == shares[..i] + [shares[i]];
      SumSnoc(shares[..i], shares[i]);
      CongAdd(sum, Sum(shares[..i]), shares[i], shares[i], p);
      sum := Add(sum, shares[i], p);
    }
    assert shares[..|shares|] == shares;
    CongSmall(sum, Secret(shares, p), p);
  }

  /**
   * Missing any one share, the others say nothing about the secret: for every other secret
   * exactly one value of the missing share completes them.
   */
  lemma OneShareHidesTheSecret(shares: seq<int>, i: nat, other: int, x: int, p: Modulus)
    requires i < |shares| && Element(other, p) && Element(x, p)
    ensures Secret(shares[i := x], p) == other
       <==> x == Reduce(other - (Sum(shares) - shares[i]), p)
  {
    hide Reduce, Sum, Cong;
    SumUpdate(shares, i, x);
    CompletesTo(Sum(shares) - shares[i], other, x, p);
  }

  lemma SumInserted(others: seq<int>, i: nat, x: int)
    requires i <= |others|
    ensures Sum(others[..i] + [x] + others[i..]) == Sum(others) + x
  {
    hide Sum;
    var front, back := others[..i], others[i..];
    assert others == front + back;
    SumAppend(front + [x], back);
    SumSnoc(front, x);
    SumAppend(front, back);
  }

  /**
   * Whichever party is left out, the shares of all the others say nothing about the secret: for every secret,
   * exactly one draw deals them those shares.
   */
  lemma OneDrawForEveryView(secret: int, i: nat, others: seq<int>, p: Modulus)
    requires Element(secret, p) && i <= |others| && Elements(others, p)
    ensures exists random, shares ::
              && Elements(random, p) && Deals(secret, random, shares, p)
              && |shares| == |others| + 1 && shares[..i] + shares[i + 1..] == others
    ensures forall r1, s1, r2, s2 ::
              && Deals(secret, r1, s1, p) && |s1| == |others| + 1 && s1[..i] + s1[i + 1..] == others
              && Deals(secret, r2, s2, p) && |s2| == |others| + 1 && s2[..i] + s2[i + 1..] == others
              ==> r1 == r2
  {
    var x := Reduce(secret - Sum(others), p);
    var shares := others[..i] + [x] + others[i..];
    ViewFixes(secret, i, others, shares, p);
    var random := shares[..|others|];
    assert shares[..i] + shares[i + 1..] == others;
    assert Deals(secret, random, shares, p);
    forall r1, s1, r2, s2 |
        && Deals(secret, r1, s1, p) && |s1| == |others| + 1 && s1[..i] + s1[i + 1..] == others
        && Deals(secret, r2, s2, p) && |s2| == |others| + 1 && s2[..i] + s2[i + 1..] == others
      ensures r1 == r2
    {
      ViewFixes(secret, i, others, s1, p);
      ViewFixes(secret, i, others, s2, p);
      assert r1 == s1[..|others|] && r2 == s2[..|others|];
    }
  }

  /** A secret and all shares but one leave one value for that one. */
  lemma ViewFixes(secret: int, i: nat, others: seq<int>, shares: seq<int>, p: Modulus)
    requires Element(secret, p) && i <= |others| && |shares| == |others| + 1 && shares[..i] + shares[i + 1..] == others
    requires Element(shares[i], p)
    ensures Secret(shares, p) == secret <==> shares[i] == Reduce(secret - Sum(others), p)
    ensures shares == others[..i] + [shares[i]] + others[i..]
  {
    assert shares == others[..i] + [shares[i]] + others[i..];
    hide Reduce, Sum;
    SumInserted(others, i, shares[i]);
    CompletesTo(Sum(others), secret, shares[i], p);
  }

  lemma CompletesTo(rest: int, other: int, x: int, p: Modulus)
    requires Element(other, p) && Element(x, p)
    ensures Reduce(rest + x, p) == other <==> x == Reduce(other - rest, p)
  {
    if Reduce(rest + x, p) == other {
      CongSub(other, rest + x, rest, rest, p);
      CongSmall(Reduce(other - rest, p), x, p);
    }
    if x == Reduce(other - rest, p) {
      CongAdd(x, other - rest, rest, rest, p);
      CongSmall(Reduce(rest + x, p), other, p);
    }
  }

  // ---- Beaver triples ----

  datatype SharedTriple = SharedTriple(A: int, B: int, C: int)

  function As(ts: seq<SharedTriple>): (r: seq<int>)
    ensures |r| == |ts|
  {
    seq(|ts|, i requires 0 <= i < |ts| => ts[i].A)
  }

  function Bs(ts: seq<SharedTriple>): (r: seq<int>)
    ensures |r| == |ts|
  {
    seq(|ts|, i requires 0 <= i < |ts| => ts[i].B)
  }

  function Cs(ts: seq<SharedTriple>): (r: seq<int>)
    ensures |r| == |ts|
  {
    seq(|ts|, i requires 0 <= i < |ts| => ts[i].C)
  }

  /** The parties' pieces of one triple hold a, b and their product. */
  predicate ValidTriple(ts: seq<SharedTriple>, p: Modulus) {
    && Elements(As(ts), p) && Elements(Bs(ts), p) && Elements(Cs(ts), p)
    && Cong(Sum(Cs(ts)), Sum(As(ts)) * Sum(Bs(ts)), p)
  }

  /** Draws a and b, multiplies them and deals all three to n parties. */
  method DealTriple(a: int, b: int, n: int, ra: seq<int>, rb: seq<int>, rc: seq<int>, p: Modulus)
    returns (ok: bool, ts: seq<SharedTriple>)
    requires n >= 2 ==> |ra| == |rb| == |rc| == n - 1
    requires Element(a, p) && Element(b, p) && Elements(ra, p) && Elements(rb, p) && Elements(rc, p)
    ensures ok <==> n >= 2
    ensures ok ==> |ts| == n && ValidTriple(ts, p)
    ensures ok ==> Deals(a, ra, As(ts), p) && Deals(b, rb, Bs(ts), p) && Deals(Mul(a, b, p), rc, Cs(ts), p)
  {
    ts := [];
    var c := Mul(a, b, p);
    var aShares := AdditiveShare(a, n, ra, p);
    var bShares := AdditiveShare(b, n, rb, p);
    var cShares := AdditiveShare(c, n, rc, p);
    if aShares.TooFewParties? || bShares.TooFewParties? || cShares.TooFewParties? {
      return false, [];
    }
    for i := 0 to n
      invariant |ts| == i
      invariant forall j :: 0 <= j < i ==>
        ts[j] == SharedTriple(aShares.shares[j], bShares.shares[j], cShares.shares[j])
    {
      ts := ts + [SharedTriple(aShares.shares[i], bShares.shares[i], cShares.shares[i])];
    }
    assert As(ts) == aShares.shares && Bs(ts) == bShares.shares && Cs(ts) == cShares.shares;
    CongMul(a, Sum(As(ts)), b, Sum(Bs(ts)), p);
    ok := true;
  }

  function MulOpen(x: int, y: int, t: SharedTriple, p: Modulus): (int, int) {
    (Sub(x, t.A, p), Sub(y, t.B, p))
  }

  /** One party's share of the product; only party 0 adds the public term d*e. */
  function MulFinalize(d: int, e: int, t: SharedTriple, myIndex: int, p: Modulus): (r: int)
    ensures Element(r, p)
  {
    var res := t.C;
    var res := Add(res, Mul(d, t.B, p), p);
    var res := Add(res, Mul(e, t.A, p), p);
    if myIndex == 0 then Add(res, Mul(d, e, p), p) else res
  }

  function MulShares(d: int, e: int, ts: seq<SharedTriple>, p: Modulus): (r: seq<int>)
    ensures |r| == |ts|
  {
    seq(|ts|, i requires 0 <= i < |ts| => MulFinalize(d, e, ts[i], i, p))
  }

  function SubShares(xs: seq<int>, ys: seq<int>, p: Modulus): (r: seq<int>)
    requires |xs| == |ys|
    ensures |r| == |xs|
  {
    seq(|xs|, i requires 0 <= i < |xs| => Sub(xs[i], ys[i], p))
  }

  function AddShares(xs: seq<int>, ys: seq<int>, p: Modulus): (r: seq<int>)
    requires |xs| == |ys|
    ensures |r| == |xs|
  {
    seq(|xs|, i requires 0 <= i < |xs| => Add(xs[i], ys[i], p))
  }

  /** Subtracting share by share subtracts the secrets. */
  lemma {:induction false} SubSharesSum(xs: seq<int>, ys: seq<int>, p: Modulus)
    requires |xs| == |ys|
    ensures Cong(Sum(SubShares(xs, ys, p)), Sum(xs) - Sum(ys), p)
  {
    if xs != [] {
      var k := |xs| - 1;
      SubSharesSum(xs[..k], ys[..k], p);
      assert SubShares(xs, ys, p)[..k] == SubShares(xs[..k], ys[..k], p);
      CongAdd(Sum(SubShares(xs[..k], ys[..k], p)), Sum(xs[..k]) - Sum(ys[..k]),
              Sub(xs[k], ys[k], p), xs[k] - ys[k], p);
    }
  }

  /** Adding share by share adds the secrets. */
  lemma {:induction false} AddSharesSum(xs: seq<int>, ys: seq<int>, p: Modulus)
    requires |xs| == |ys|
    ensures Cong(Sum(AddShares(xs, ys, p)), Sum(xs) + Sum(ys), p)
  {
    if xs != [] {
      var k := |xs| - 1;
      AddSharesSum(xs[..k], ys[..k], p);
      assert AddShares(xs, ys, p)[..k] == AddShares(xs[..k], ys[..k], p);
      CongAdd(Sum(AddShares(xs[..k], ys[..k], p)), Sum(xs[..k]) + Sum(ys[..k]),
              Add(xs[k], ys[k], p), xs[k] + ys[k], p);
    }
  }

  lemma MulFinalizeCong(d: int, e: int, t: SharedTriple, myIndex: int, p: Modulus)
    ensures Cong(MulFinalize(d, e, t, myIndex, p),
                 t.C + d * t.B + e * t.A + (if myIndex == 0 then d * e else 0), p)
  {
    var r1 := Add(t.C, Mul(d, t.B, p), p);
    var r2 := Add(r1, Mul(e, t.A, p), p);
    CongAdd(t.C, t.C, Mul(d, t.B, p), d * t.B, p);
    CongAdd(r1, t.C + d * t.B, Mul(e, t.A, p), e * t.A, p);
    if myIndex == 0 {
      CongAdd(r2, t.C + d * t.B + e * t.A, Mul(d, e, p), d * e, p);
    }
  }

  lemma {:induction false} MulSharesSum(d: int, e: int, ts: seq<SharedTriple>, p: Modulus)
    ensures Cong(Sum(MulShares(d, e, ts, p)),
                 Sum(Cs(ts)) + d * Sum(Bs(ts)) + e * Sum(As(ts)) + (if ts == [] then 0 else d * e), p)
  {
    if ts != [] {
      var k := |ts| - 1;
      var f, t := ts[..k], ts[k];
      MulSharesSum(d, e, f, p);
      assert MulShares(d, e, ts, p)[..k] == MulShares(d, e, f, p);
      assert As(ts)[..k] == As(f) && Bs(ts)[..k] == Bs(f) && Cs(ts)[..k] == Cs(f);
      MulFinalizeCong(d, e, t, k, p);
      CongAdd(Sum(MulShares(d, e, f, p)),
              Sum(Cs(f)) + d * Sum(Bs(f)) + e * Sum(As(f)) + (if f == [] then 0 else d * e),
              MulFinalize(d, e, t, k, p),
              t.C + d * t.B + e * t.A + (if k == 0 then d * e else 0), p);
      MulDistributeLeft(d, Sum(Bs(f)), t.B);
      MulDistributeLeft(e, Sum(As(f)), t.A);
    }
  }

  /** Beaver's identity: with d = x - a and e = y - b opened, the shares add up to x * y. */
  lemma BeaverMultiplies(x: int, y: int, d: int, e: int, ts: seq<SharedTriple>, p: Modulus)
    requires ts != [] && ValidTriple(ts, p)
    requires Cong(d, x - Sum(As(ts)), p) && Cong(e, y - Sum(Bs(ts)), p)
    ensures Cong(Sum(MulShares(d, e, ts, p)), x * y, p)
  {
    var a, b, c := Sum(As(ts)), Sum(Bs(ts)), Sum(Cs(ts));
    MulSharesSum(d, e, ts, p);
    CongMul(d, x - a, b, b, p);
    CongMul(e, y - b, a, a, p);
    CongMul(d, x - a, e, y - b, p);
    CongAdd(c, a * b, d * b, (x - a) * b, p);
    CongAdd(c + d * b, a * b + (x - a) * b, e * a, (y - b) * a, p);
    CongAdd(c + d * b + e * a, a * b + (x - a) * b + (y - b) * a, d * e, (x - a) * (y - b), p);
    BeaverIdentity(x, y, a, b);
  }

  lemma BeaverIdentity(x: int, y: int, a: int, b: int)
    ensures a * b + (x - a) * b + (y - b) * a + (x - a) * (y - b) == x * y
  {
    assert (x - a) * b == x * b - a * b;
    assert (y - b) * a == y * a - b * a;
    assert (x - a) * (y - b) == x * y - x * b - a * y + a * b;
  }
}
