/**
 * Volume-synchronised order-flow imbalance: swaps are poured into twenty buckets of equal volume. All
 * volumes are counted in twentieths, so a bucket holds exactly the total volume as a whole number.
 */
module Vpin {
  import opened Arithmetic

  const BUCKETS := 20

  /** A price of zero or less is no quote; prices are counted in some fixed unit. */
  datatype Swap = Swap(amount: nat, isBuy: bool, price: int)

  function Volume(swaps: seq<Swap>): nat {
    if swaps == [] then 0 else swaps[0].amount + Volume(swaps[1..])
  }

  function Signed(n: int, isBuy: bool): int {
    if isBuy then n else -n
  }

  /** Bought minus sold volume. */
  function Imbalance(swaps: seq<Swap>): int {
    if swaps == [] then 0 else Signed(swaps[0].amount, swaps[0].isBuy) + Imbalance(swaps[1..])
  }

  // ---- The definition: cut the flow of single units into equal pieces ----

  /** n units bought or sold. */
  function Units(n: nat, isBuy: bool): (r: seq<int>)
    ensures |r| == n
  {
    seq(n, _ => Signed(1, isBuy))
  }

  /** Every swap as that many single units, in order. */
  function Flow(swaps: seq<Swap>): seq<int> {
    if swaps == [] then [] else Units(BUCKETS * swaps[0].amount, swaps[0].isBuy) + Flow(swaps[1..])
  }

  /** The imbalances of consecutive pieces of the given size, the last one possibly shorter, added up. */
  function PiecewiseImbalance(flow: seq<int>, size: nat): nat
    requires size > 0
  {
    if |flow| < size then Abs(Sum(flow))
    else Abs(Sum(flow[..size])) + PiecewiseImbalance(flow[size..], size)
  }

  lemma {:induction false} UnitsSum(n: nat, isBuy: bool)
    ensures Sum(Units(n, isBuy)) == Signed(n, isBuy)
  {
    if n > 0 {
      assert Units(n, isBuy) == Units(n - 1, isBuy) + [Signed(1, isBuy)];
      SumSnoc(Units(n - 1, isBuy), Signed(1, isBuy));
      UnitsSum(n - 1, isBuy);
    }
  }

  lemma UnitsSplit(n: nat, k: nat, isBuy: bool)
    requires k <= n
    ensures Units(n, isBuy) == Units(k, isBuy) + Units(n - k, isBuy)
  {
  }

  lemma {:induction false} FlowProperties(swaps: seq<Swap>)
    ensures |Flow(swaps)| == BUCKETS * Volume(swaps)
    ensures Sum(Flow(swaps)) == BUCKETS * Imbalance(swaps)
    ensures forall i :: 0 <= i < |Flow(swaps)| ==> Flow(swaps)[i] == 1 || Flow(swaps)[i] == -1
  {
    if swaps != [] {
      var n := BUCKETS * swaps[0].amount;
      FlowProperties(swaps[1..]);
      UnitsSum(n, swaps[0].isBuy);
      SumAppend(Units(n, swaps[0].isBuy), Flow(swaps[1..]));
    }
  }

  lemma {:induction false} SumOfUnits(flow: seq<int>)
    requires forall i :: 0 <= i < |flow| ==> flow[i] == 1 || flow[i] == -1
    ensures Abs(Sum(flow)) <= |flow|
  {
    if flow != [] {
      SumOfUnits(flow[..|flow| - 1]);
    }
  }

  /** Cutting a flow can only lose cancellation: the pieces' imbalances cover the whole one, within the volume. */
  lemma {:induction false} PiecesBound(flow: seq<int>, size: nat)
    requires size > 0 && forall i :: 0 <= i < |flow| ==> flow[i] == 1 || flow[i] == -1
    ensures Abs(Sum(flow)) <= PiecewiseImbalance(flow, size) <= |flow|
  {
    if |flow| < size {
      SumOfUnits(flow);
    } else {
      SumOfUnits(flow[..size]);
      PiecesBound(flow[size..], size);
      assert flow == flow[..size] + flow[size..];
      SumAppend(flow[..size], flow[size..]);
    }
  }

  /** Unit u of the flow, counted in twentieths, belongs to the swap whose volume it falls into. */
  lemma {:induction false} FlowAt(swaps: seq<Swap>, i: nat, u: nat)
    requires i < |swaps|
    requires 20 * Volume(swaps[..i]) <= u < 20 * Volume(swaps[..i]) + 20 * swaps[i].amount
    ensures u < |Flow(swaps)| && Flow(swaps)[u] == if swaps[i].isBuy then 1 else -1
    decreases i
  {
    FlowProperties(swaps);
    assert swaps[..i] == swaps[..0] + swaps[..i];
    if i > 0 {
      assert swaps[..i][0] == swaps[0] && swaps[..i][1..] == swaps[1..][..i - 1];
      FlowAt(swaps[1..], i - 1, u - 20 * swaps[0].amount);
    } else {
      assert swaps[..0] == [];
      assert |Units(20 * swaps[0].amount, swaps[0].isBuy)| == 20 * swaps[0].amount;
    }
  }

  /** The imbalance of piece k. */
  function PieceImbalance(flow: seq<int>, size: nat, k: nat): nat
    requires (k + 1) * size <= |flow|
  {
    assert k * size <= (k + 1) * size by { NextFull(k, size); }
    Abs(Sum(flow[k * size..(k + 1) * size]))
  }

  function PieceSum(flow: seq<int>, size: nat, n: nat): nat
    requires n * size <= |flow|
  {
    if n == 0 then 0
    else
      NextFull(n - 1, size);
      PieceSum(flow, size, n - 1) + PieceImbalance(flow, size, n - 1)
  }

  lemma PieceAfter(flow: seq<int>, size: nat, k: nat)
    requires (k + 2) * size <= |flow|
    ensures size <= |flow| && (k + 1) * size <= |flow[size..]|
    ensures PieceImbalance(flow, size, k + 1) == PieceImbalance(flow[size..], size, k)
  {
    NextFull(k, size);
    NextFull(k + 1, size);
    assert (k + 1) * size == k * size + size && (k + 2) * size == k * size + 2 * size;
    assert flow[size..][k * size..(k + 1) * size] == flow[(k + 1) * size..(k + 2) * size];
  }

  lemma {:induction false} PieceSumFront(flow: seq<int>, size: nat, n: nat)
    requires n > 0 && n * size <= |flow|
    ensures size <= |flow| && (n - 1) * size <= |flow[size..]|
    ensures PieceSum(flow, size, n) == Abs(Sum(flow[..size])) + PieceSum(flow[size..], size, n - 1)
  {
    NextFull(n - 1, size);
    if n == 1 {
      assert PieceSum(flow, size, 0) == 0;
      assert flow[0 * size..1 * size] == flow[..size];
    } else {
      NextFull(n - 2, size);
      PieceSumFront(flow, size, n - 1);
      PieceAfter(flow, size, n - 2);
    }
  }

  /** A flow of n whole pieces: the sum of the imbalances of piece 0 to piece n - 1. */
  lemma {:induction false} PiecesAddUp(flow: seq<int>, size: nat, n: nat)
    requires size > 0 && |flow| == n * size
    ensures PiecewiseImbalance(flow, size) == PieceSum(flow, size, n)
    decreases n
  {
    if n > 0 {
      NextFull(n - 1, size);
      PieceSumFront(flow, size, n);
      PiecesAddUp(flow[size..], size, n - 1);
    } else {
      assert flow == [];
    }
  }

  /** So the imbalance of a window is that of its twenty pieces of one window volume, in twentieths, each. */
  lemma TwentyPieces(swaps: seq<Swap>)
    requires Volume(swaps) > 0
    ensures |Flow(swaps)| == 20 * Volume(swaps)
    ensures PiecewiseImbalance(Flow(swaps), Volume(swaps)) == PieceSum(Flow(swaps), Volume(swaps), 20)
  {
    FlowProperties(swaps);
    hide Flow, Volume;
    PiecesAddUp(Flow(swaps), Volume(swaps), 20);
  }

  // ---- The loop ----

  /** A bucket filled to the brim is counted and emptied. */
  lemma FullBucketCounts(filled: seq<int>, rest: seq<int>, size: nat)
    requires size > 0 && |filled| == size
    ensures PiecewiseImbalance(filled + rest, size) == Abs(Sum(filled)) + PiecewiseImbalance(rest, size)
  {
    assert (filled + rest)[..size] == filled && (filled + rest)[size..] == rest;
  }

  /** What full buckets hold. */
  function Filled(full: nat, size: nat): nat {
    full * size
  }

  /** Pours one swap; the bucket in progress holds the units of pending. */
  method Pour(s: Swap, bucketSize: nat, buy: nat, sell: nat, total: nat, full: nat,
              ghost pending: seq<int>, ghost rest: seq<int>)
    returns (buy': nat, sell': nat, total': nat, full': nat, ghost pending': seq<int>)
    requires bucketSize > 0
    requires |pending| == buy + sell < bucketSize && Sum(pending) == buy - sell
    ensures |pending'| == buy' + sell' < bucketSize && Sum(pending') == buy' - sell'
    ensures Filled(full', bucketSize) + buy' + sell' == Filled(full, bucketSize) + buy + sell + BUCKETS * s.amount
    ensures total' + PiecewiseImbalance(pending' + rest, bucketSize)
         == total + PiecewiseImbalance(pending + (Units(BUCKETS * s.amount, s.isBuy) + rest), bucketSize)
  {
    hide PiecewiseImbalance, Sum, Units, Filled;
    buy', sell', total', full', pending' := buy, sell, total, full, pending;
    var remaining: nat := BUCKETS * s.amount;
    NoUnits(s.isBuy, rest);
    while remaining > 0
      invariant |pending'| == buy' + sell' < bucketSize && Sum(pending') == buy' - sell'
      invariant Filled(full', bucketSize) + buy' + sell' + remaining
             == Filled(full, bucketSize) + buy + sell + BUCKETS * s.amount
      invariant total' + PiecewiseImbalance(pending' + (Units(remaining, s.isBuy) + rest), bucketSize)
             == total + PiecewiseImbalance(pending + (Units(BUCKETS * s.amount, s.isBuy) + rest), bucketSize)
      decreases remaining
    {
      var capacity := bucketSize - (buy' + sell');
      var take := if remaining > capacity then capacity else remaining;
      ghost var left := Units(remaining - take, s.isBuy) + rest;
      PourOnce(pending', remaining, take, s.isBuy, rest);
      pending' := pending' + Units(take, s.isBuy);
      if s.isBuy {
        buy' := buy' + take;
      } else {
        sell' := sell' + take;
      }
      remaining := remaining - take;
      if buy' + sell' >= bucketSize {
        FullBucketCounts(pending', left, bucketSize);
        NextFull(full', bucketSize);
        total' := total' + Abs(buy' - sell');
        full' := full' + 1;
        buy', sell', pending' := 0, 0, [];
        EmptySum(left);
      }
    }
  }

  lemma NextFull(full: nat, size: nat)
    ensures Filled(full + 1, size) == Filled(full, size) + size
  {
  }

  lemma NoUnits(isBuy: bool, rest: seq<int>)
    ensures Units(0, isBuy) + rest == rest
  {
  }

  lemma EmptySum(rest: seq<int>)
    ensures Sum([]) == 0 && [] + rest == rest
  {
  }

  lemma PourOnce(pending: seq<int>, remaining: nat, take: nat, isBuy: bool, rest: seq<int>)
    requires take <= remaining
    ensures pending + (Units(remaining, isBuy) + rest)
         == (pending + Units(take, isBuy)) + (Units(remaining - take, isBuy) + rest)
    ensures Sum(pending + Units(take, isBuy)) == Sum(pending) + Signed(take, isBuy)
  {
    UnitsSplit(remaining, take, isBuy);
    SumAppend(pending, Units(take, isBuy));
    UnitsSum(take, isBuy);
  }

  /**
   * The accumulated imbalance is the piecewise imbalance of the flow, in twentieths; buckets that were
   * filled and what is left over hold all the volume.
   */
  method AccumulateBuckets(swaps: seq<Swap>, bucketSize: nat) returns (acc: nat, full: nat, left: nat)
    requires bucketSize > 0
    ensures acc == PiecewiseImbalance(Flow(swaps), bucketSize)
    ensures full * bucketSize + left == BUCKETS * Volume(swaps) && left < bucketSize
  {
    var buy: nat, sell: nat := 0, 0;
    acc, full := 0, 0;
    ghost var pending: seq<int> := [];
    assert swaps[0..] == swaps && [] + Flow(swaps) == Flow(swaps);
    for i := 0 to |swaps|
      invariant |pending| == buy + sell < bucketSize && Sum(pending) == buy - sell
      invariant acc + PiecewiseImbalance(pending + Flow(swaps[i..]), bucketSize)
             == PiecewiseImbalance(Flow(swaps), bucketSize)
      invariant full * bucketSize + buy + sell + BUCKETS * Volume(swaps[i..]) == BUCKETS * Volume(swaps)
    {
      hide PiecewiseImbalance, Sum, Units;
      assert swaps[i..][1..] == swaps[i + 1..];
      buy, sell, acc, full, pending := Pour(swaps[i], bucketSize, buy, sell, acc, full, pending, Flow(swaps[i + 1..]));
    }
    assert pending + [] == pending;
    left := buy + sell;
    if left > 0 {
      acc := acc + Abs(buy - sell);
    }
  }

  /** acc / (2 * total), with acc in twentieths. */
  method ComputeVpin(swaps: seq<Swap>, totalVolume: nat) returns (vpin: Fraction, full: nat)
    ensures totalVolume == 0 || swaps == [] ==> vpin == Fraction(0, 1) && full == 0
    ensures totalVolume > 0 && swaps != [] ==>
              && vpin == Fraction(PiecewiseImbalance(Flow(swaps), totalVolume), 40 * totalVolume)
              && full == 20 * Volume(swaps) / totalVolume
  {
    hide PiecewiseImbalance, Flow, Volume;
    if totalVolume == 0 || |swaps| == 0 {
      return Fraction(0, 1), 0;
    }
    var acc, filled, left := AccumulateBuckets(swaps, totalVolume);
    DivModUnique(BUCKETS * Volume(swaps), totalVolume, filled, left);
    vpin, full := Fraction(acc, 2 * BUCKETS * totalVolume), filled;
  }

  // ---- A window ----

  datatype Prices = Prices(open: int, close: int, impact: Fraction, range: Fraction)

  datatype Window = Window(
    swapCount: nat, ofi: int, buyCount: nat, volume: nat, avgSize: Fraction, buyRatio: Fraction,
    vpin: Fraction, full: nat, prices: Prices)

  const NO_PRICES := Prices(0, 0, Fraction(0, 1), Fraction(0, 1))

  function Buys(swaps: seq<Swap>): nat {
    if swaps == [] then 0 else (if swaps[0].isBuy then 1 else 0) + Buys(swaps[1..])
  }

  /** The number of swaps that buy. */
  lemma {:induction false} BuysCount(swaps: seq<Swap>)
    ensures Buys(swaps) == |set i: nat | i < |swaps| && swaps[i].isBuy|
    decreases |swaps|
  {
    var s := set i: nat | i < |swaps| && swaps[i].isBuy;
    if swaps != [] {
      var rest := swaps[1..];
      BuysCount(rest);
      var r := set i: nat | i < |rest| && rest[i].isBuy;
      ShiftedSize(r, s - {0});
      assert 0 in s <==> swaps[0].isBuy;
      assert 0 in s ==> s == (s - {0}) + {0};
      assert 0 !in s ==> s == s - {0};
    }
  }

  lemma {:induction false} ShiftedSize(a: set<nat>, b: set<nat>)
    requires forall i: nat :: i in a <==> i + 1 in b
    requires 0 !in b
    ensures |a| == |b|
  {
    if b == {} {
      assert forall i :: i !in a;
      assert a == {};
    } else {
      var y :| y in b;
      assert (y - 1) + 1 == y;
      ShiftedSize(a - {y - 1}, b - {y});
    }
  }

  function Quotes(swaps: seq<Swap>): seq<int> {
    if swaps == [] then [] else (if swaps[0].price > 0 then [swaps[0].price] else []) + Quotes(swaps[1..])
  }

  predicate Spans(lo: int, hi: int, quotes: seq<int>) {
    lo in quotes && hi in quotes && forall x :: x in quotes ==> lo <= x <= hi
  }

  /**
   * The range is the span over the mean and the impact the way from the first quote to the last, which is
   * never longer than the span.
   */
  ghost predicate Summarizes(quotes: seq<int>, r: Prices) {
    if quotes == [] then r == NO_PRICES
    else
      && r.open == quotes[0] > 0 && r.close == quotes[|quotes| - 1] && r.impact == Fraction(r.close - r.open, r.open)
      && r.range.den == Sum(quotes) > 0
      && Abs(r.close - r.open) * |quotes| <= r.range.num
      && exists lo, hi :: Spans(lo, hi, quotes) && r.range.num == (hi - lo) * |quotes|
  }

  method Summarize(quotes: seq<int>, lo: int, hi: int) returns (r: Prices)
    requires forall x :: x in quotes ==> x > 0
    requires quotes != [] ==> Spans(lo, hi, quotes)
    ensures Summarizes(quotes, r)
  {
    if |quotes| == 0 {
      return NO_PRICES;
    }
    var open, close := quotes[0], quotes[|quotes| - 1];
    var total := Total(quotes);
    SumNonNegative(quotes);
    assert open in quotes && close in quotes;
    MulAtLeast(hi - lo, Abs(close - open), |quotes|);
    r := Prices(open, close, Fraction(close - open, open), Fraction((hi - lo) * |quotes|, total));
  }

  method Total(xs: seq<int>) returns (sum: int)
    ensures sum == Sum(xs)
  {
    sum := 0;
    for i := 0 to |xs|
      invariant sum == Sum(xs[..i])
    {
      assert xs[..i + 1] == xs[..i] + [xs[i]];
      SumSnoc(xs[..i], xs[i]);
      sum := sum + xs[i];
    }
    assert xs[..|xs|] == xs;
  }

  lemma {:induction false} QuotesPositive(swaps: seq<Swap>)
    ensures forall x :: x in Quotes(swaps) ==> x > 0
  {
    if swaps != [] {
      QuotesPositive(swaps[1..]);
    }
  }

  lemma NextQuote(quotes: seq<int>, swaps: seq<Swap>, i: nat)
    requires i < |swaps|
    ensures quotes + Quotes(swaps[i..])
         == (if swaps[i].price > 0 then quotes + [swaps[i].price] else quotes) + Quotes(swaps[i + 1..])
  {
    assert swaps[i..][1..] == swaps[i + 1..];
    var rest := Quotes(swaps[i + 1..]);
    if swaps[i].price > 0 {
      assert quotes + ([swaps[i].price] + rest) == (quotes + [swaps[i].price]) + rest;
    } else {
      assert [] + rest == rest;
    }
  }

  lemma NoMoreQuotes(quotes: seq<int>, swaps: seq<Swap>)
    ensures quotes + Quotes(swaps[|swaps|..]) == quotes && Quotes(swaps[0..]) == Quotes(swaps)
  {
    assert swaps[0..] == swaps && swaps[|swaps|..] == [] && quotes + [] == quotes;
  }

  lemma SpanGrows(lo: int, hi: int, quotes: seq<int>, x: int)
    requires quotes != [] ==> Spans(lo, hi, quotes)
    ensures Spans(if quotes == [] || x < lo then x else lo, if quotes == [] || x > hi then x else hi, quotes + [x])
  {
  }

  /** The quotes in their order, and the lowest and highest of them. */
  method CollectQuotes(swaps: seq<Swap>) returns (quotes: seq<int>, lo: int, hi: int)
    ensures quotes == Quotes(swaps)
    ensures quotes != [] ==> Spans(lo, hi, quotes)
  {
    hide Quotes, Spans;
    quotes, lo, hi := [], 0, 0;
    NoMoreQuotes(quotes, swaps);
    assert [] + Quotes(swaps) == Quotes(swaps);
    for i := 0 to |swaps|
      invariant quotes + Quotes(swaps[i..]) == Quotes(swaps)
      invariant quotes != [] ==> Spans(lo, hi, quotes)
    {
      NextQuote(quotes, swaps, i);
      var price := swaps[i].price;
      if price > 0 {
        SpanGrows(lo, hi, quotes, price);
        if quotes == [] || price < lo {
          lo := price;
        }
        if quotes == [] || price > hi {
          hi := price;
        }
        quotes := quotes + [price];
      }
    }
    NoMoreQuotes(quotes, swaps);
  }

  method ComputeWindow(swaps: seq<Swap>) returns (w: Window)
    ensures w.swapCount == |swaps| && w.buyCount == |set i: nat | i < |swaps| && swaps[i].isBuy|
    ensures w.ofi == Imbalance(swaps) && w.volume == Volume(swaps)
    ensures w.full == if w.volume > 0 then 20 else 0
    ensures w.volume == 0 ==> w.vpin == Fraction(0, 1)
    ensures w.vpin.den > 0 && Bounded(w.ofi, w.volume, w.vpin)
    ensures swaps != [] ==> w.avgSize == Fraction(w.volume, |swaps|) && w.buyRatio == Fraction(w.buyCount, |swaps|)
    ensures swaps == [] ==> w.avgSize == w.buyRatio == Fraction(0, 1)
    ensures Summarizes(Quotes(swaps), w.prices)
  {
    if |swaps| == 0 {
      return Window(0, 0, 0, 0, Fraction(0, 1), Fraction(0, 1), Fraction(0, 1), 0, NO_PRICES);
    }
    var buyVolume: nat, sellVolume: nat, totalVolume: nat, buyCount := 0, 0, 0, 0;
    for i := 0 to |swaps|
      invariant totalVolume + Volume(swaps[i..]) == Volume(swaps)
      invariant buyVolume - sellVolume + Imbalance(swaps[i..]) == Imbalance(swaps)
      invariant buyCount + Buys(swaps[i..]) == Buys(swaps)
      invariant buyVolume + sellVolume == totalVolume
    {
      assert swaps[i..][1..] == swaps[i + 1..];
      totalVolume := totalVolume + swaps[i].amount;
      if swaps[i].isBuy {
        buyVolume := buyVolume + swaps[i].amount;
        buyCount := buyCount + 1;
      } else {
        sellVolume := sellVolume + swaps[i].amount;
      }
    }
    BuysCount(swaps);
    hide Summarizes, Spans, Bounded;
    var vpin, full := WindowVpin(swaps, totalVolume);
    var quotes, lo, hi := CollectQuotes(swaps);
    QuotesPositive(swaps);
    var prices := Summarize(quotes, lo, hi);
    w := Window(|swaps|, buyVolume - sellVolume, buyCount, totalVolume, Fraction(totalVolume, |swaps|),
                Fraction(buyCount, |swaps|), vpin, full, prices);
  }

  /** |OFI| <= 2 * volume * VPIN <= volume, multiplied out. */
  predicate Bounded(ofi: int, volume: nat, vpin: Fraction) {
    Abs(ofi) * vpin.den <= 2 * volume * vpin.num <= volume * vpin.den
  }

  method WindowVpin(swaps: seq<Swap>, totalVolume: nat) returns (vpin: Fraction, full: nat)
    requires totalVolume == Volume(swaps)
    ensures full == if totalVolume > 0 then 20 else 0
    ensures totalVolume == 0 ==> vpin == Fraction(0, 1)
    ensures vpin.den > 0 && Bounded(Imbalance(swaps), totalVolume, vpin)
  {
    if totalVolume > 0 {
      assert swaps != [];
      VpinBounds(swaps);
      hide PiecewiseImbalance, Flow, Volume, Imbalance, Bounded;
      vpin, full := ComputeVpin(swaps, totalVolume);
      DivModUnique(BUCKETS * totalVolume, totalVolume, BUCKETS, 0);
    } else {
      NothingTraded(swaps);
      vpin, full := ComputeVpin(swaps, totalVolume);
    }
  }

  lemma {:induction false} NothingTraded(swaps: seq<Swap>)
    requires Volume(swaps) == 0
    ensures Imbalance(swaps) == 0
  {
    if swaps != [] {
      NothingTraded(swaps[1..]);
    }
  }

  lemma FlowBounds(swaps: seq<Swap>)
    requires Volume(swaps) > 0
    ensures BUCKETS * Abs(Imbalance(swaps)) <= PiecewiseImbalance(Flow(swaps), Volume(swaps)) <= BUCKETS * Volume(swaps)
  {
    FlowProperties(swaps);
    PiecesBound(Flow(swaps), Volume(swaps));
    hide PiecewiseImbalance, Flow, Volume, Imbalance, Sum;
  }

  lemma FractionBounds(ofi: int, volume: nat, acc: nat)
    requires BUCKETS * Abs(ofi) <= acc <= BUCKETS * volume
    ensures Bounded(ofi, volume, Fraction(acc, 2 * BUCKETS * volume))
  {
    MulAtLeast(acc, BUCKETS * Abs(ofi), 2 * volume);
    MulAtLeast(BUCKETS * volume, acc, 2 * volume);
    hide Abs;
    assert Abs(ofi) * (2 * BUCKETS * volume) == (BUCKETS * Abs(ofi)) * (2 * volume);
    assert volume * (2 * BUCKETS * volume) == (BUCKETS * volume) * (2 * volume);
  }

  /**
   * In exact arithmetic twice the volume times the result lies between the absolute order-flow imbalance
   * and the volume.
   */
  lemma VpinBounds(swaps: seq<Swap>)
    requires Volume(swaps) > 0
    ensures Bounded(Imbalance(swaps), Volume(swaps),
                    Fraction(PiecewiseImbalance(Flow(swaps), Volume(swaps)), 40 * Volume(swaps)))
  {
    FlowBounds(swaps);
    hide PiecewiseImbalance, Flow, Volume, Imbalance, Abs, Bounded;
    FractionBounds(Imbalance(swaps), Volume(swaps), PiecewiseImbalance(Flow(swaps), Volume(swaps)));
  }
}
