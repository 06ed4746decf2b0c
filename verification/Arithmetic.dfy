/** Facts about integer division with a variable modulus, and sums of sequences. */
module Arithmetic {

  type Modulus = p: int | 2 <= p witness 2

  /** An exact quotient. */
  datatype Fraction = Fraction(num: int, den: int)

  function Abs(x: int): nat {
    if x >= 0 then x else -x
  }

  /** The sum of a sequence of integers. */
  function Sum(xs: seq<int>): int {
    if xs == [] then 0 else Sum(xs[..|xs| - 1]) + xs[|xs| - 1]
  }

  lemma SumSnoc(xs: seq<int>, x: int)
    ensures Sum(xs + [x]) == Sum(xs) + x
  {
    assert (xs + [x])[..|xs|] == xs;
  }

  lemma {:induction false} SumAppend(xs: seq<int>, ys: seq<int>)
    ensures Sum(xs + ys) == Sum(xs) + Sum(ys)
  {
    if ys == [] {
      assert xs + ys == xs;
    } else {
      var k := |ys| - 1;
      assert xs + ys == (xs + ys[..k]) + [ys[k]];
      SumSnoc(xs + ys[..k], ys[k]);
      SumAppend(xs, ys[..k]);
    }
  }

  lemma {:induction false} SumUpdate(xs: seq<int>, i: nat, x: int)
    requires i < |xs|
    ensures Sum(xs[i := x]) == Sum(xs) - xs[i] + x
  {
    assert xs == xs[..i] + ([xs[i]] + xs[i + 1..]);
    assert xs[i := x] == xs[..i] + ([x] + xs[i + 1..]);
    SumAppend(xs[..i], [xs[i]] + xs[i + 1..]);
    SumAppend(xs[..i], [x] + xs[i + 1..]);
    SumAppend([xs[i]], xs[i + 1..]);
    SumAppend([x], xs[i + 1..]);
    assert Sum([x]) == x && Sum([xs[i]]) == xs[i];
  }

  lemma {:induction false} SumNonNegative(xs: seq<int>)
    requires forall x :: x in xs ==> 0 <= x
    ensures 0 <= Sum(xs)
    ensures forall x :: x in xs ==> x <= Sum(xs)
  {
    if xs != [] {
      var front := xs[..|xs| - 1];
      assert forall x :: x in front ==> x in xs;
      assert xs[|xs| - 1] in xs;
      SumNonNegative(front);
      assert forall x :: x in xs ==> x in front || x == xs[|xs| - 1];
    }
  }

  lemma MulAtLeast(k: int, m: int, p: int)
    requires m <= k && 0 <= p
    ensures m * p <= k * p
  {
  }

  lemma MulDistribute(x: int, y: int, p: int)
    ensures (x - y) * p == x * p - y * p
    ensures (x + y) * p == x * p + y * p
  {
  }

  lemma MulDistributeLeft(x: int, y: int, z: int)
    ensures x * (y + z) == x * y + x * z
  {
  }

  lemma MulAssoc(x: int, y: int, z: int)
    ensures (x * y) * z == x * (y * z)
  {
  }

  /** Euclidean division is the only division with a remainder in range. */
  lemma DivModUnique(x: int, p: int, q: int, r: int)
    requires 0 < p && 0 <= r < p && x == q * p + r
    ensures x / p == q && x % p == r
  {
    var q', r' := x / p, x % p;
    MulDistribute(q', q, p);
    if q' > q {
      MulAtLeast(q' - q, 1, p);
    } else if q' < q {
      MulAtLeast(q' - q, -1, p);
    }
  }

  lemma ModAddMultiple(x: int, k: int, p: int)
    requires 0 < p
    ensures (x + k * p) % p == x % p
  {
    assert x + k * p == (x / p + k) * p + x % p;
    DivModUnique(x + k * p, p, x / p + k, x % p);
  }

  /** Two integers have the same remainder. */
  predicate Cong(x: int, y: int, p: int)
    requires 0 < p
  {
    x % p == y % p
  }

  lemma CongReflexive(x: int, p: int)
    requires 0 < p
    ensures Cong(x, x, p)
  {
  }

  lemma CongSymmetric(x: int, y: int, p: int)
    requires 0 < p && Cong(x, y, p)
    ensures Cong(y, x, p)
  {
  }

  lemma CongTransitive(x: int, y: int, z: int, p: int)
    requires 0 < p && Cong(x, y, p) && Cong(y, z, p)
    ensures Cong(x, z, p)
  {
  }

  lemma CongMod(x: int, p: int)
    requires 0 < p
    ensures Cong(x % p, x, p)
  {
    DivModUnique(x % p, p, 0, x % p);
  }

  lemma CongAdd(x: int, x': int, y: int, y': int, p: int)
    requires 0 < p && Cong(x, x', p) && Cong(y, y', p)
    ensures Cong(x + y, x' + y', p)
  {
    var k := (x / p - x' / p) + (y / p - y' / p);
    assert x + y == (x' + y') + k * p;
    ModAddMultiple(x' + y', k, p);
  }

  lemma CongSub(x: int, x': int, y: int, y': int, p: int)
    requires 0 < p && Cong(x, x', p) && Cong(y, y', p)
    ensures Cong(x - y, x' - y', p)
  {
    var k := (x / p - x' / p) - (y / p - y' / p);
    assert x - y == (x' - y') + k * p;
    ModAddMultiple(x' - y', k, p);
  }

  lemma CongQuotient(x: int, x': int, p: int) returns (a: int)
    requires 0 < p && Cong(x, x', p)
    ensures x == x' + a * p
  {
    a := x / p - x' / p;
    MulDistribute(x / p, x' / p, p);
  }

  lemma CongShift(x: int, k: int, p: int)
    requires 0 < p
    ensures Cong(x + k * p, x, p)
  {
    ModAddMultiple(x, k, p);
  }

  lemma ProductOfShifted(x: int, a: int, y: int, b: int, p: int)
    ensures (x + a * p) * (y + b * p) == x * y + (x * b + a * y + a * b * p) * p
  {
    assert (x + a * p) * (y + b * p) == x * y + x * (b * p) + (a * p) * y + (a * p) * (b * p);
    MulAssoc3(x, a, b, y, p);
  }

  lemma CongMul(x: int, x': int, y: int, y': int, p: int)
    requires 0 < p && Cong(x, x', p) && Cong(y, y', p)
    ensures Cong(x * y, x' * y', p)
  {
    var a := CongQuotient(x, x', p);
    var b := CongQuotient(y, y', p);
    hide Cong;
    ProductOfShifted(x', a, y', b, p);
    CongShift(x' * y', x' * b + a * y' + a * b * p, p);
  }

  lemma MulAssoc3(x: int, a: int, b: int, y: int, p: int)
    ensures x * (b * p) + (a * p) * y + (a * p) * (b * p) == (x * b + a * y + a * b * p) * p
  {
    assert x * (b * p) == (x * b) * p;
    assert (a * p) * y == (a * y) * p;
    assert (a * p) * (b * p) == (a * b * p) * p;
  }

  lemma CongSmall(x: int, y: int, p: int)
    requires 0 < p && Cong(x, y, p) && 0 <= x < p && 0 <= y < p
    ensures x == y
  {
    DivModUnique(x, p, 0, x);
    DivModUnique(y, p, 0, y);
  }
}
