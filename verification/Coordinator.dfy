/** The coordinator: dealing the tasks of a session, collecting the result shares and recombining them. */
module Coordinator {
  import opened Options
  import opened Arithmetic
  import opened Field
  import opened Sharing
  import opened TaskParts
  import opened Worker
  import opened Lockstep

  // ---- Dealing ----

  function TripleCount(op: Op, parties: nat): nat {
    match op
    case OpSum => 0
    case OpAverage => 0
    case OpComparison => 2
    case OpMax => if parties < 2 then 1 else parties
    case OpUnknown => 0
  }

  datatype SharesResult = SharedSlots(slots: seq<seq<int>>) | BadInputs

  /** The inputs a session can run on: slots 0..count-1 present and numeric, two of them for a comparison. */
  predicate UsableInputs(op: Op, inputs: map<int, Option<int>>) {
    && (op.OpComparison? ==> |inputs| == 2)
    && |inputs| > 0
    && forall i: nat :: i < |inputs| ==> i in inputs && inputs[i].Some?
  }

  ghost function FirstKeys(k: nat): (s: set<int>)
    ensures forall i :: i in s <==> 0 <= i < k
    ensures |s| == k
  {
    if k == 0 then {} else FirstKeys(k - 1) + {k - 1}
  }

  /** Exactly the slots 0 to k - 1, all readable, at least one of them, and two for a comparison. */
  lemma UsableInputsAre(op: Op, inputs: map<int, Option<int>>)
    ensures UsableInputs(op, inputs) <==>
            && inputs != map[] && (forall i :: i in inputs <==> 0 <= i < |inputs|)
            && (forall i :: i in inputs ==> inputs[i].Some?)
            && (op == OpComparison ==> inputs.Keys == {0, 1})
  {
    var first := FirstKeys(|inputs|);
    if UsableInputs(op, inputs) {
      KeysAreFirst(first, inputs.Keys);
      assert forall i :: i in inputs.Keys <==> i in first;
    } else if inputs.Keys == {0, 1} {
      assert |inputs| == 2;
    }
  }

  lemma KeysAreFirst(a: set<int>, b: set<int>)
    requires a <= b && |a| == |b|
    ensures a == b
  {
    assert b == a + (b - a);
    assert |b| == |a| + |b - a|;
  }

  /** Splits every input into one share per party; random[i] is what is drawn for input i. */
  method ShareInputs(op: Op, n: nat, inputs: map<int, Option<int>>, random: seq<seq<int>>, p: Modulus)
    returns (r: SharesResult)
    requires n >= 2 && |random| == |inputs|
    requires forall i :: 0 <= i < |random| ==> |random[i]| == n - 1 && Elements(random[i], p)
    ensures r.SharedSlots? <==> UsableInputs(op, inputs)
    ensures r.SharedSlots? ==>
      && |r.slots| == |inputs|
      && forall i: nat :: i < |r.slots| ==>
           && |r.slots[i]| == n && Elements(r.slots[i], p)
           && Secret(r.slots[i], p) == Reduce(inputs[i].value, p)
           && Deals(Reduce(inputs[i].value, p), random[i], r.slots[i], p)
  {
    var count := |inputs|;
    if op.OpComparison? && count != 2 {
      return BadInputs;
    }
    if count == 0 {
      return BadInputs;
    }
    var slots := [];
    var i := 0;
    while i < count
      invariant 0 <= i <= count && |slots| == i
      invariant forall k: nat :: k < i ==>
        && k in inputs && inputs[k].Some?
        && |slots[k]| == n && Elements(slots[k], p)
        && Deals(Reduce(inputs[k].value, p), random[k], slots[k], p)
    {
      if i !in inputs || inputs[i].None? {
        return BadInputs;
      }
      var shares := AdditiveShare(Reduce(inputs[i].value, p), n, random[i], p);
      if shares.TooFewParties? {
        return BadInputs;
      }
      slots := slots + [shares.shares];
      i := i + 1;
    }
    return SharedSlots(slots);
  }

  /** What is drawn for one triple: the factors and the random shares of a, b and their product. */
  datatype TripleDraw = TripleDraw(a: int, b: int, ra: seq<int>, rb: seq<int>, rc: seq<int>)

  predicate GoodDraw(d: TripleDraw, n: nat, p: Modulus) {
    && Element(d.a, p) && Element(d.b, p)
    && |d.ra| == |d.rb| == |d.rc| == n - 1
    && Elements(d.ra, p) && Elements(d.rb, p) && Elements(d.rc, p)
  }

  /** The draw's factors and their product, each dealt with the elements drawn for it. */
  predicate DealsTriple(d: TripleDraw, ts: seq<SharedTriple>, p: Modulus) {
    && Deals(d.a, d.ra, As(ts), p)
    && Deals(d.b, d.rb, Bs(ts), p)
    && Deals(Reduce(d.a * d.b, p), d.rc, Cs(ts), p)
  }

  /** Deals the session's triples, one draw for each. */
  method BuildTriples(op: Op, n: nat, draws: seq<TripleDraw>, p: Modulus) returns (out: seq<seq<SharedTriple>>)
    requires n >= 2 && |draws| == TripleCount(op, n)
    requires forall i :: 0 <= i < |draws| ==> GoodDraw(draws[i], n, p)
    ensures |out| == TripleCount(op, n) && GoodTriples(out, n, p)
    ensures |out| == if op == OpMax then n else if op == OpComparison then 2 else 0
    ensures forall i :: 0 <= i < |out| ==> DealsTriple(draws[i], out[i], p)
  {
    out := [];
    for i := 0 to |draws|
      invariant |out| == i && GoodTriples(out, n, p)
      invariant forall j :: 0 <= j < i ==> DealsTriple(draws[j], out[j], p)
    {
      var t := draws[i];
      var ok, shared := DealTriple(t.a, t.b, n, t.ra, t.rb, t.rc, p);
      out := out + [shared];
    }
  }

  /** The task of one node as it goes over the wire. */
  datatype WireTask = WireTask(op: Op, bitLen: int, shares: seq<ShareData>, triples: seq<TripleData>)

  const DEFAULT_BIT_LEN := 64

  function NodeTask(op: Op, node: nat, slots: seq<seq<int>>, triples: seq<seq<SharedTriple>>): (t: WireTask)
    requires forall i :: 0 <= i < |slots| ==> node < |slots[i]|
    requires forall i :: 0 <= i < |triples| ==> node < |triples[i]|
  {
    WireTask(op, DEFAULT_BIT_LEN,
             seq(|slots|, i requires 0 <= i < |slots| => ShareData(i, Bytes(slots[i][node]))),
             seq(|triples|, i requires 0 <= i < |triples| =>
               TripleData(Bytes(triples[i][node].A), Bytes(triples[i][node].B), Bytes(triples[i][node].C))))
  }

  function ParseTask(w: WireTask, p: Modulus): Task {
    Task(w.op, ParseSlots(w.shares, p), ParseTriples(w.triples, p), w.bitLen)
  }

  predicate GoodSlots(slots: seq<seq<int>>, n: nat, p: Modulus) {
    forall i :: 0 <= i < |slots| ==> |slots[i]| == n && Elements(slots[i], p)
  }

  predicate GoodTriples(triples: seq<seq<SharedTriple>>, n: nat, p: Modulus) {
    forall i :: 0 <= i < |triples| ==> |triples[i]| == n && ValidTriple(triples[i], p)
  }

  /** What the nodes hold once they have read their tasks. */
  ghost function Dealt(op: Op, n: nat, slots: seq<seq<int>>, triples: seq<seq<SharedTriple>>, p: Modulus): Deal
    requires GoodSlots(slots, n, p) && GoodTriples(triples, n, p)
  {
    Deal(p, seq(n, j requires 0 <= j < n => ParseTask(NodeTask(op, j, slots, triples), p)))
  }

  lemma TriplesAreElements(triples: seq<seq<SharedTriple>>, n: nat, j: nat, p: Modulus)
    requires GoodTriples(triples, n, p) && j < n
    ensures forall i :: 0 <= i < |triples| ==>
      && j < |triples[i]| && Element(triples[i][j].A, p) && Element(triples[i][j].B, p) && Element(triples[i][j].C, p)
  {
    forall i | 0 <= i < |triples|
      ensures Element(triples[i][j].A, p) && Element(triples[i][j].B, p) && Element(triples[i][j].C, p)
    {
      assert As(triples[i])[j] == triples[i][j].A && Bs(triples[i])[j] == triples[i][j].B
          && Cs(triples[i])[j] == triples[i][j].C;
    }
  }

  /** Reading a task gives the node's row of the shares and triples that were dealt. */
  lemma ParseNodeTask(op: Op, n: nat, slots: seq<seq<int>>, triples: seq<seq<SharedTriple>>, j: nat, p: Modulus)
    requires GoodSlots(slots, n, p) && GoodTriples(triples, n, p) && j < n
    ensures
      var t := Dealt(op, n, slots, triples, p).tasks[j];
      && t.op == op && t.bitLen == 64
      && |t.slots| == |slots| && (forall i :: 0 <= i < |slots| ==> t.slots[i] == slots[i][j])
      && |t.triples| == |triples| && (forall i :: 0 <= i < |triples| ==> t.triples[i] == triples[i][j])
  {
    TriplesAreElements(triples, n, j, p);
    var w := NodeTask(op, j, slots, triples);
    SortBySlotKeepsOrder(w.shares);
    forall i | 0 <= i < |slots|
      ensures FromBytes(w.shares[i].value, p) == slots[i][j]
    {
      FromBytesBytes(slots[i][j], p);
    }
    forall i | 0 <= i < |triples|
      ensures ParseTriples(w.triples, p)[i] == triples[i][j]
    {
      FromBytesBytes(triples[i][j].A, p);
      FromBytesBytes(triples[i][j].B, p);
      FromBytesBytes(triples[i][j].C, p);
    }
  }

  /** The nodes together hold exactly the secrets and triples that were dealt. */
  lemma DealtIsValid(op: Op, n: nat, slots: seq<seq<int>>, triples: seq<seq<SharedTriple>>, p: Modulus)
    requires n >= 2 && slots != [] && p <= MAX_MODULUS
    requires GoodSlots(slots, n, p) && GoodTriples(triples, n, p)
    ensures
      var d := Dealt(op, n, slots, triples, p);
      && d.Valid() && d.tasks[0].op == op && d.Parties() == n && d.Triples() == |triples| && BitsOk(d)
      && |d.Secrets()| == |slots|
      && forall s :: 0 <= s < |slots| ==> d.Secrets()[s] == Secret(slots[s], p)
  {
    hide Secret, ParseTask, NodeTask, ValidTriple;
    var d := Dealt(op, n, slots, triples, p);
    forall j: nat | j < n
      ensures
        var t := d.tasks[j];
        && t.op == op && t.bitLen == DEFAULT_BIT_LEN
        && |t.slots| == |slots| && (forall i :: 0 <= i < |slots| ==> t.slots[i] == slots[i][j])
        && |t.triples| == |triples| && (forall i :: 0 <= i < |triples| ==> t.triples[i] == triples[i][j])
    {
      ParseNodeTask(op, n, slots, triples, j, p);
    }
    assert d.Shaped();
    forall c: nat | c < |triples|
      ensures ValidTriple(d.TripleColumn(c), p)
    {
      assert d.TripleColumn(c) == triples[c];
    }
    forall s: nat | s < |slots|
      ensures d.Secrets()[s] == Secret(slots[s], p)
    {
      assert d.Column(s) == slots[s];
    }
  }

  // ---- Collecting ----

  datatype Collected = Collected(shares: map<nat, seq<Byte>>, failed: bool, closed: bool)

  function Collect(c: Collected, expected: nat, node: nat, r: Option<seq<Byte>>): Collected {
    if c.closed then c
    else
      match r
      case None => c.(failed := true, closed := true)
      case Some(value) =>
        var shares := c.shares[node := value];
        c.(shares := shares, closed := |shares| >= expected)
  }

  class ResultCollector {
    const expected: nat
    var shares: map<nat, seq<Byte>>
    var failed: bool
    var closed: bool

    function State(): Collected
      reads this
    {
      Collected(shares, failed, closed)
    }

    constructor (n: nat)
      ensures expected == n && State() == Collected(map[], false, false)
    {
      expected := n;
      shares, failed, closed := map[], false, false;
    }

    /** A result after the collector closed is ignored; an error closes it at once. */
    method Add(node: nat, r: Option<seq<Byte>>)
      modifies this
      ensures State() == Collect(old(State()), expected, node, r)
      ensures old(closed) ==> shares == old(shares) && failed == old(failed) && closed
      ensures !old(closed) && r.None? ==> shares == old(shares) && failed && closed
      ensures !old(closed) && r.Some? ==>
                && shares == old(shares)[node := r.value] && failed == old(failed)
                && (closed <==> |shares| >= expected)
    {
      if closed {
        return;
      }
      match r {
        case None =>
          failed := true;
          closed := true;
        case Some(value) =>
          shares := shares[node := value];
          if |shares| >= expected {
            closed := true;
          }
      }
    }
  }

  // ---- Recombining ----

  predicate AllPresent(n: nat, shares: map<nat, seq<Byte>>) {
    forall i: nat :: i < n ==> i in shares
  }

  function Parts(n: nat, shares: map<nat, seq<Byte>>, p: Modulus): (r: seq<int>)
    requires AllPresent(n, shares)
  {
    seq(n, i requires 0 <= i < n => FromBytes(shares[i], p))
  }

  /** The session's result, or nothing when a node's share is missing. */
  function Recombined(op: Op, n: nat, shares: map<nat, seq<Byte>>, p: Modulus): Option<int>
    requires n > 0
  {
    if AllPresent(n, shares) then
      var val := Secret(Parts(n, shares, p), p);
      Some(if op.OpAverage? then val / n else val)
    else None
  }

  method Recombine(op: Op, n: nat, shares: map<nat, seq<Byte>>, p: Modulus) returns (r: Option<int>)
    requires n > 0
    ensures r == if |shares| < n then None else Recombined(op, n, shares, p)
    ensures r.None? <==> |shares| < n || exists i: nat :: i < n && i !in shares
    ensures r.Some? ==>
              exists parts: seq<int> ::
                && |parts| == n && (forall i: nat :: i < n ==> i in shares && parts[i] == FromBytes(shares[i], p))
                && r.value == (if op == OpAverage then Reduce(Sum(parts), p) / n else Reduce(Sum(parts), p))
  {
    if |shares| < n {
      return None;
    }
    var parts := [];
    for i := 0 to n
      invariant |parts| == i
      invariant forall k: nat :: k < i ==> k in shares && parts[k] == FromBytes(shares[k], p)
    {
      if i !in shares {
        return None;
      }
      parts := parts + [FromBytes(shares[i], p)];
    }
    assert parts == Parts(n, shares, p);
    var val := AdditiveRecombine(parts, p);
    if op.OpAverage? {
      return Some(val / n);
    }
    return Some(val);
  }
}
