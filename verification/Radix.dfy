/** Positional notation: the value of a big-endian digit string and the shortest digit string of a value. */
module Radix {
  import opened Arithmetic

  type Base = b: int | 2 <= b witness 2

  /** The value of a big-endian digit string. */
  function Value(ds: seq<int>, b: Base): int {
    if ds == [] then 0 else Value(ds[..|ds| - 1], b) * b + ds[|ds| - 1]
  }

  /** The shortest big-endian digit string of v; zero has no digits, as in big.Int.Bytes. */
  function Digits(v: nat, b: Base): (ds: seq<int>)
    ensures IsDigits(ds, b)
    ensures ds != [] ==> ds[0] != 0
    decreases v
  {
    if v == 0 then []
    else
      QuotientShrinks(v, b);
      Digits(v / b, b) + [v % b]
  }

  predicate IsDigits(ds: seq<int>, b: Base) {
    forall i :: 0 <= i < |ds| ==> 0 <= ds[i] < b
  }

  lemma QuotientShrinks(v: nat, b: Base)
    requires 0 < v
    ensures 0 <= v / b < v
  {
    var q := v / b;
    assert v == q * b + v % b;
    if q >= v {
      MulAtLeast(q, v, b);
      MulAtLeast(b, 2, v);
    } else if q < 0 {
      MulAtLeast(q, -1, b);
    }
  }

  lemma ValueSnoc(ds: seq<int>, d: int, b: Base)
    ensures Value(ds + [d], b) == Value(ds, b) * b + d
  {
    assert (ds + [d])[..|ds|] == ds;
  }

  lemma DigitsSplit(v: nat, b: Base) returns (q: nat, r: nat)
    requires 0 < v
    ensures q < v && v == q * b + r
    ensures Digits(v, b) == Digits(q, b) + [r]
  {
    QuotientShrinks(v, b);
    q, r := v / b, v % b;
  }

  lemma {:induction false} ValueOfDigits(v: nat, b: Base)
    ensures Value(Digits(v, b), b) == v
    decreases v
  {
    if v != 0 {
      var q, r := DigitsSplit(v, b);
      ValueOfDigits(q, b);
      ValueSnoc(Digits(q, b), r, b);
    }
  }

  lemma {:induction false} ValueNonNegative(ds: seq<int>, b: Base)
    requires IsDigits(ds, b)
    ensures 0 <= Value(ds, b)
  {
    if ds != [] {
      ValueNonNegative(ds[..|ds| - 1], b);
      assert 0 <= Value(ds[..|ds| - 1], b) * b;
    }
  }

  lemma DigitsSnoc(v: nat, d: nat, b: Base)
    requires d < b && (v == 0 ==> d != 0)
    ensures 0 < v * b + d && Digits(v * b + d, b) == Digits(v, b) + [d]
  {
    DivModUnique(v * b + d, b, v, d);
    if v != 0 {
      MulAtLeast(v, 1, b);
    } else {
      assert v * b == 0;
    }
  }

  lemma DigitsFront(ds: seq<int>, b: Base)
    requires IsDigits(ds, b) && ds != []
    ensures IsDigits(ds[..|ds| - 1], b) && 0 <= ds[|ds| - 1] < b
  {
  }

  /** A digit string that does not start with zero is the shortest one of its value. */
  lemma {:induction false} DigitsOfValue(ds: seq<int>, b: Base)
    requires IsDigits(ds, b) && (ds != [] ==> ds[0] != 0)
    ensures 0 <= Value(ds, b)
    ensures ds != [] ==> 0 < Value(ds, b)
    ensures Digits(Value(ds, b), b) == ds
  {
    if ds != [] {
      hide Digits, Value, IsDigits;
      var k := |ds| - 1;
      var front, last := ds[..k], ds[k];
      DigitsFront(ds, b);
      assert front != [] ==> front[0] == ds[0];
      DigitsOfValue(front, b);
      assert ds == front + [last];
      ValueSnoc(front, last, b);
      EmptyValue(b);
      DigitsSnoc(Value(front, b), last, b);
    }
  }

  lemma EmptyValue(b: Base)
    ensures Value([], b) == 0
  {
  }

  lemma {:induction false} ValueLeadingZeros(z: nat, ds: seq<int>, b: Base)
    ensures Value(seq(z, _ => 0) + ds, b) == Value(ds, b)
    decreases z + |ds|
  {
    var s := seq(z, _ => 0) + ds;
    if ds != [] {
      assert s[..|s| - 1] == seq(z, _ => 0) + ds[..|ds| - 1];
      ValueLeadingZeros(z, ds[..|ds| - 1], b);
    } else if z > 0 {
      assert s[..|s| - 1] == seq(z - 1, _ => 0) + ds;
      ValueLeadingZeros(z - 1, ds, b);
    }
  }

  function Pow(b: int, e: nat): int {
    if e == 0 then 1 else Pow(b, e - 1) * b
  }

  lemma {:induction false} PowPositive(b: int, e: nat)
    requires 1 <= b
    ensures 1 <= Pow(b, e)
  {
    if e > 0 {
      PowPositive(b, e - 1);
      assert Pow(b, e - 1) * b >= 1 * 1;
    }
  }

  lemma {:induction false} PowAdd(b: int, m: nat, n: nat)
    ensures Pow(b, m + n) == Pow(b, m) * Pow(b, n)
  {
    if n > 0 {
      PowAdd(b, m, n - 1);
      assert Pow(b, m) * Pow(b, n - 1) * b == Pow(b, m) * (Pow(b, n - 1) * b);
    }
  }

  lemma {:induction false} ValueBounded(ds: seq<int>, b: Base)
    requires IsDigits(ds, b)
    ensures 0 <= Value(ds, b) < Pow(b, |ds|)
  {
    if ds != [] {
      var front := ds[..|ds| - 1];
      ValueBounded(front, b);
      var v := Value(front, b);
      MulAtLeast(Pow(b, |front|), v + 1, b);
      MulAtLeast(v, 0, b);
      MulDistribute(v, 1, b);
    }
  }

  /** Appending splits the value by position. */
  lemma {:induction false} ValueAppend(xs: seq<int>, ys: seq<int>, b: Base)
    ensures Value(xs + ys, b) == Value(xs, b) * Pow(b, |ys|) + Value(ys, b)
  {
    if ys == [] {
      assert xs + ys == xs;
    } else {
      var k := |ys| - 1;
      assert (xs + ys)[..|xs| + k] == xs + ys[..k];
      ValueAppend(xs, ys[..k], b);
      var X, P, Y := Value(xs, b), Pow(b, k), Value(ys[..k], b);
      MulDistribute(X * P, Y, b);
      MulAssoc(X, P, b);
    }
  }
}
