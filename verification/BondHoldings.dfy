/** Sums of positions over an issue, and what the position operations do to them. */
module BondHoldings {
  import opened Arithmetic
  import opened Bonds

  /** What the first n investors hold of an issue together. */
  function HeldBy(ps: map<Holding, Position>, issue: nat, n: nat): int {
    if n == 0 then 0 else HeldBy(ps, issue, n - 1) + QuantityOf(ps, Holding(n - 1, issue))
  }

  lemma {:induction false} HeldByUpdate(ps: map<Holding, Position>, k: Holding, p: Position, issue: nat, n: nat)
    ensures HeldBy(ps[k := p], issue, n)
         == HeldBy(ps, issue, n)
            + (if k.issue == issue && k.investor < n then p.quantity - QuantityOf(ps, k) else 0)
  {
    if n > 0 {
      HeldByUpdate(ps, k, p, issue, n - 1);
    }
  }

  lemma {:induction false} HeldByNothing(ps: map<Holding, Position>, issue: nat, n: nat)
    requires forall h: nat :: h < n ==> QuantityOf(ps, Holding(h, issue)) == 0
    ensures HeldBy(ps, issue, n) == 0
  {
    if n > 0 {
      HeldByNothing(ps, issue, n - 1);
    }
  }

  lemma {:induction false} HeldBySame(ps: map<Holding, Position>, qs: map<Holding, Position>, issue: nat, n: nat)
    requires forall h: nat :: h < n ==> QuantityOf(qs, Holding(h, issue)) == QuantityOf(ps, Holding(h, issue))
    ensures HeldBy(qs, issue, n) == HeldBy(ps, issue, n)
  {
    if n > 0 {
      HeldBySame(ps, qs, issue, n - 1);
    }
  }

  lemma HeldByCredit(ps: map<Holding, Position>, k: Holding, quantity: int, price: int, issue: nat, n: nat)
    requires quantity > 0 && k.investor < n && QuantityOf(ps, k) >= 0
    ensures HeldBy(Credit(ps, k, quantity, price), issue, n)
         == HeldBy(ps, issue, n) + (if k.issue == issue then quantity else 0)
  {
    hide Average, HeldBy;
    var ps' := Credit(ps, k, quantity, price);
    assert ps' == ps[k := ps'[k]];
    HeldByUpdate(ps, k, ps'[k], issue, n);
  }

  lemma HeldByDebit(ps: map<Holding, Position>, k: Holding, quantity: int, issue: nat, n: nat)
    requires k.investor < n && k in ps
    ensures HeldBy(Debit(ps, k, quantity), issue, n)
         == HeldBy(ps, issue, n) - (if k.issue == issue then quantity else 0)
  {
    HeldByUpdate(ps, k, ps[k].(quantity := ps[k].quantity - quantity), issue, n);
  }

  // ---- Enumerations of the holders ----

  /** Taking one holder's position away. */
  function Without(ps: map<Holding, Position>, k: Holding): map<Holding, Position> {
    if k in ps then ps[k := ps[k].(quantity := 0)] else ps
  }

  function WithoutAll(ps: map<Holding, Position>, issue: nat, order: seq<nat>): map<Holding, Position> {
    if order == [] then ps
    else Without(WithoutAll(ps, issue, order[..|order| - 1]), Holding(order[|order| - 1], issue))
  }

  lemma {:induction false} WithoutAllElsewhere(ps: map<Holding, Position>, issue: nat, order: seq<nat>, k: Holding)
    ensures k in WithoutAll(ps, issue, order) <==> k in ps
    ensures k in ps ==>
              WithoutAll(ps, issue, order)[k]
              == if k.issue == issue && k.investor in order then ps[k].(quantity := 0) else ps[k]
  {
    if order != [] {
      var front, last := order[..|order| - 1], order[|order| - 1];
      assert order == front + [last];
      WithoutAllElsewhere(ps, issue, front, k);
    }
  }

  lemma {:induction false} HeldByWithoutAll(ps: map<Holding, Position>, issue: nat, order: seq<nat>, n: nat)
    requires forall i, j :: 0 <= i < j < |order| ==> order[i] != order[j]
    requires forall h: nat :: h in order ==> h < n
    ensures HeldBy(WithoutAll(ps, issue, order), issue, n) == HeldBy(ps, issue, n) - QuantitySum(ps, issue, order)
  {
    if order != [] {
      var front, last := order[..|order| - 1], order[|order| - 1];
      assert order == front + [last];
      assert forall h: nat :: h in front ==> h in order;
      assert last !in front;
      HeldByWithoutAll(ps, issue, front, n);
      var k, qs := Holding(last, issue), WithoutAll(ps, issue, front);
      WithoutAllElsewhere(ps, issue, front, k);
      assert last in order && WithoutAll(ps, issue, order) == Without(qs, k);
      assert QuantityOf(qs, k) == QuantityOf(ps, k);
      if k in qs {
        HeldByUpdate(qs, k, qs[k].(quantity := 0), issue, n);
      }
    }
  }

  lemma WithoutHoldersIsZeroOut(ps: map<Holding, Position>, issue: nat, order: seq<nat>)
    requires IsHolders(ps, issue, order) && forall k :: k in ps ==> ps[k].quantity >= 0
    ensures WithoutAll(ps, issue, order) == ZeroOut(ps, issue)
  {
    var qs := WithoutAll(ps, issue, order);
    forall k
      ensures k in qs <==> k in ps
      ensures k in ps ==> qs[k] == ZeroOut(ps, issue)[k]
    {
      WithoutAllElsewhere(ps, issue, order, k);
      if k in ps && k.issue == issue {
        assert k.investor in order <==> QuantityOf(ps, Holding(k.investor, issue)) > 0;
        assert k == Holding(k.investor, issue);
      }
    }
  }

  /** However the holders are enumerated, they hold together what everybody holds together. */
  lemma HoldersHoldAll(ps: map<Holding, Position>, issue: nat, order: seq<nat>, n: nat)
    requires IsHolders(ps, issue, order)
    requires forall k :: k in ps ==> ps[k].quantity >= 0 && k.investor < n
    ensures QuantitySum(ps, issue, order) == HeldBy(ps, issue, n)
    ensures HeldBy(ZeroOut(ps, issue), issue, n) == 0
    ensures forall h: nat :: h in order ==> h < n
  {
    forall h: nat | h in order
      ensures h < n
    {
      assert QuantityOf(ps, Holding(h, issue)) > 0;
    }
    HeldByWithoutAll(ps, issue, order, n);
    WithoutHoldersIsZeroOut(ps, issue, order);
    HeldByNothing(ZeroOut(ps, issue), issue, n);
  }

  // ---- Average price ----

  lemma RoundDivExact(a: int, b: int)
    requires b > 0
    ensures RoundDiv(a * b, b) == a
  {
    assert (2 * (a * b) + b) == (2 * b) * a + b;
    DivBetween(2 * (a * b) + b, 2 * b, a);
  }

  lemma DivBetween(x: int, d: int, q: int)
    requires d > 0 && d * q <= x < d * (q + 1)
    ensures x / d == q
  {
    var q' := x / d;
    assert x == d * q' + x % d;
    if q' > q {
      MulAtLeast(q', q + 1, d);
    } else if q' < q {
      MulAtLeast(q, q' + 1, d);
    }
  }

  lemma RoundDivBetween(a: int, b: int, lo: int, hi: int)
    requires b > 0 && lo * b <= a <= hi * b
    ensures lo <= RoundDiv(a, b) <= hi
  {
    var x, d := 2 * a + b, 2 * b;
    var q := x / d;
    assert x == d * q + x % d;
    if q < lo {
      MulAtLeast(lo, q + 1, d);
    } else if q > hi {
      MulAtLeast(q, hi + 1, d);
    }
  }

  lemma RoundDivNonNegative(a: int, b: int)
    requires a >= 0 && b > 0
    ensures RoundDiv(a, b) >= 0
  {
    if (2 * a + b) / (2 * b) < 0 {
      MulAtLeast(-1, (2 * a + b) / (2 * b), 2 * b);
    }
  }

  lemma AverageExact(price: int, quantity: int)
    requires quantity > 0
    ensures Average(price * quantity, quantity) == price
  {
    hide RoundDiv;
    assert price * quantity * TEN_8 == (price * TEN_8) * quantity;
    RoundDivExact(price * TEN_8, quantity);
    RoundDivExact(price, TEN_8);
  }

  lemma AverageInside(cost: int, quantity: int, lo: int, hi: int)
    requires quantity > 0 && lo * quantity <= cost <= hi * quantity
    ensures lo <= Average(cost, quantity) <= hi
  {
    hide RoundDiv;
    assert (lo * TEN_8) * quantity == (lo * quantity) * TEN_8 <= cost * TEN_8;
    assert cost * TEN_8 <= (hi * quantity) * TEN_8 == (hi * TEN_8) * quantity;
    RoundDivBetween(cost * TEN_8, quantity, lo * TEN_8, hi * TEN_8);
    RoundDivBetween(RoundDiv(cost * TEN_8, quantity), TEN_8, lo, hi);
  }

  /** The average price after a purchase lies between the old average and the price paid. */
  lemma AverageBetween(ps: map<Holding, Position>, k: Holding, quantity: int, price: int)
    requires quantity > 0 && k in ps && ps[k].quantity >= 0
    ensures var avg, avg' := ps[k].avgPrice, Credit(ps, k, quantity, price)[k].avgPrice;
            (if avg <= price then avg else price) <= avg' <= (if avg <= price then price else avg)
  {
    var avg, held := ps[k].avgPrice, ps[k].quantity;
    var lo, hi := if avg <= price then avg else price, if avg <= price then price else avg;
    MulAtLeast(avg, lo, held);
    MulAtLeast(hi, avg, held);
    MulAtLeast(price, lo, quantity);
    MulAtLeast(hi, price, quantity);
    assert lo * (held + quantity) == held * lo + quantity * lo;
    assert hi * (held + quantity) == held * hi + quantity * hi;
    AverageInside(avg * held + price * quantity, held + quantity, lo, hi);
  }

  /** A first purchase averages to its own price, whether or not an empty row was there. */
  lemma FirstPurchase(ps: map<Holding, Position>, k: Holding, quantity: int, price: int)
    requires quantity > 0 && QuantityOf(ps, k) == 0
    ensures Credit(ps, k, quantity, price)[k] == Position(quantity, price)
  {
    if k in ps {
      assert ps[k].avgPrice * 0 == 0;
      AverageExact(price, quantity);
    }
  }
}
