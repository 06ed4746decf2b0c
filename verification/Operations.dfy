/** Opening, comparing and multiplying shared values over a peer network. */
module Operations {
  import opened Arithmetic
  import opened Field
  import opened Sharing

  // ---- Length-prefixed pairs ----

  /** A 32-bit length in big-endian order; longer lengths are truncated. */
  function PutUint32(n: nat): (bs: seq<Byte>)
    ensures |bs| == 4
    ensures n < 0x1_0000_0000 ==> GetUint32(bs) == n
  {
    var n1 := n / 256;
    var n2 := n1 / 256;
    var n3 := n2 / 256;
    [n3 % 256, n2 % 256, n1 % 256, n % 256]
  }

  function GetUint32(bs: seq<Byte>): nat
    requires |bs| == 4
  {
    var b0: int, b1: int, b2: int, b3: int := bs[0], bs[1], bs[2], bs[3];
    b0 * 0x100_0000 + b1 * 0x1_0000 + b2 * 0x100 + b3
  }

  function EncodePair(a: seq<Byte>, b: seq<Byte>): seq<Byte> {
    PutUint32(|a|) + a + PutUint32(|b|) + b
  }

  datatype PairResult = Pair(a: seq<Byte>, b: seq<Byte>) | BadPair

  function DecodePair(raw: seq<Byte>): PairResult {
    if |raw| < 4 then BadPair
    else
      var off := 4 + GetUint32(raw[..4]);
      if |raw| < off + 4 then BadPair
      else
        var lb := GetUint32(raw[off..off + 4]);
        if |raw| < off + 4 + lb then BadPair
        else Pair(raw[4..off], raw[off + 4..off + 4 + lb])
  }

  lemma DecodePairEncodePair(a: seq<Byte>, b: seq<Byte>)
    requires |a| < 0x1_0000_0000 && |b| < 0x1_0000_0000
    ensures DecodePair(EncodePair(a, b)) == Pair(a, b)
  {
    var raw := EncodePair(a, b);
    var off := 4 + |a|;
    assert raw[..4] == PutUint32(|a|);
    assert raw[4..off] == a;
    assert raw[off..off + 4] == PutUint32(|b|);
    assert raw[off + 4..off + 4 + |b|] == b;
  }

  /** The length comes first, its most significant byte first, then the bytes; so for both parts. */
  lemma PairLayout(a: seq<Byte>, b: seq<Byte>)
    requires |a| < 0x1_0000_0000 && |b| < 0x1_0000_0000
    ensures var raw := EncodePair(a, b);
            && |raw| == |a| + |b| + 8
            && raw[4..4 + |a|] == a && raw[8 + |a|..] == b
            && raw[0] == |a| / 0x100_0000 && raw[3] == |a| % 0x100
            && raw[4 + |a|] == |b| / 0x100_0000 && raw[7 + |a|] == |b| % 0x100
  {
    LengthLayout(|a|);
    LengthLayout(|b|);
    var raw, n, m := EncodePair(a, b), PutUint32(|a|), PutUint32(|b|);
    hide PutUint32;
    assert raw[..4] == n && raw[4..4 + |a|] == a && raw[4 + |a|..8 + |a|] == m && raw[8 + |a|..] == b;
    assert raw[0] == n[0] && raw[3] == n[3] && raw[4 + |a|] == m[0] && raw[7 + |a|] == m[3];
  }

  lemma LengthLayout(n: nat)
    requires n < 0x1_0000_0000
    ensures |PutUint32(n)| == 4 && PutUint32(n)[0] == n / 0x100_0000 && PutUint32(n)[3] == n % 0x100
  {
  }

  lemma Uint32Survives(bs: seq<Byte>)
    requires |bs| == 4
    ensures GetUint32(bs) < 0x1_0000_0000 && PutUint32(GetUint32(bs)) == bs
  {
    var n := GetUint32(bs);
    var n3: nat := bs[0];
    var n2: nat := n3 * 0x100 + bs[1];
    var n1: nat := n2 * 0x100 + bs[2];
    assert n == n1 * 0x100 + bs[3];
    DivModUnique(n, 0x100, n1, bs[3]);
    DivModUnique(n1, 0x100, n2, bs[2]);
    DivModUnique(n2, 0x100, n3, bs[1]);
    DivModUnique(n3, 0x100, 0, n3);
  }

  /** Exactly what is read as a pair: the encoding of that pair, and whatever follows it. */
  lemma DecodePairExact(raw: seq<Byte>, a: seq<Byte>, b: seq<Byte>)
    requires |a| < 0x1_0000_0000 && |b| < 0x1_0000_0000
    ensures DecodePair(raw) == Pair(a, b) <==> EncodePair(a, b) <= raw
    ensures DecodePair(raw).Pair? ==> |DecodePair(raw).a| < 0x1_0000_0000 && |DecodePair(raw).b| < 0x1_0000_0000
  {
    hide PutUint32, GetUint32;
    if DecodePair(raw).Pair? {
      Uint32Survives(raw[..4]);
      var off := 4 + GetUint32(raw[..4]);
      Uint32Survives(raw[off..off + 4]);
      var x, y := DecodePair(raw).a, DecodePair(raw).b;
      assert raw[..off + 4 + |y|] == raw[..4] + raw[4..off] + raw[off..off + 4] + raw[off + 4..off + 4 + |y|];
    }
    if EncodePair(a, b) <= raw {
      PairSplits(raw, a, b);
    }
  }

  lemma PairSplits(raw: seq<Byte>, a: seq<Byte>, b: seq<Byte>)
    requires |a| < 0x1_0000_0000 && |b| < 0x1_0000_0000 && EncodePair(a, b) <= raw
    ensures DecodePair(raw) == Pair(a, b)
  {
    hide PutUint32, GetUint32;
    var off, n := 4 + |a|, |a| + |b| + 8;
    var e := EncodePair(a, b);
    assert raw[..n] == e;
    assert raw[..4] == raw[..n][..4] == PutUint32(|a|);
    assert raw[4..off] == raw[..n][4..off] == a;
    assert raw[off..off + 4] == raw[..n][off..off + 4] == PutUint32(|b|);
    assert raw[off + 4..n] == raw[..n][off + 4..n] == b;
  }

  // ---- Sums over what the peers sent ----

  /** The sum of m over a set of senders; the order of the senders does not matter. */
  ghost function SetSum(s: set<nat>, m: map<nat, int>): int
    requires s <= m.Keys
  {
    if s == {} then 0
    else
      var k :| k in s;
      m[k] + SetSum(s - {k}, m)
  }

  lemma {:induction false} SetSumRemove(s: set<nat>, m: map<nat, int>, k: nat)
    requires s <= m.Keys && k in s
    ensures SetSum(s, m) == m[k] + SetSum(s - {k}, m)
    decreases s
  {
    var j :| j in s && SetSum(s, m) == m[j] + SetSum(s - {j}, m);
    if j != k {
      SetSumRemove(s - {j}, m, k);
      SetSumRemove(s - {k}, m, j);
      assert s - {j} - {k} == s - {k} - {j};
    }
  }

  // ---- The network as one node sees it ----

  /** What the environment does with a round of one node. */
  datatype Answer = BroadcastFails | GatherFails | Gathers(others: map<nat, seq<Byte>>)

  class PeerNetwork {
    var round: nat
    var sent: seq<seq<Byte>>
    const answers: seq<Answer>

    constructor (answers: seq<Answer>)
      ensures round == 0 && sent == [] && this.answers == answers
    {
      this.answers := answers;
      round, sent := 0, [];
    }

    function AnswerTo(r: nat): Answer
      requires 1 <= r
    {
      if r <= |answers| then answers[r - 1] else GatherFails
    }

    method NextRound() returns (r: nat)
      modifies this`round
      ensures r == round == old(round) + 1
    {
      round := round + 1;
      r := round;
    }

    method Broadcast(r: nat, data: seq<Byte>) returns (ok: bool)
      requires 1 <= r
      modifies this`sent
      ensures sent == old(sent) + [data]
      ensures ok <==> !AnswerTo(r).BroadcastFails?
    {
      sent := sent + [data];
      ok := !AnswerTo(r).BroadcastFails?;
    }

    method Gather(r: nat) returns (ok: bool, others: map<nat, seq<Byte>>)
      requires 1 <= r
      ensures ok <==> AnswerTo(r).Gathers?
      ensures ok ==> others == AnswerTo(r).others
    {
      var a := AnswerTo(r);
      ok, others := a.Gathers?, if a.Gathers? then a.others else map[];
    }
  }

  datatype ShareOrError = Share(value: int) | Error

  // ---- Secure comparison ----

  function Decoded(others: map<nat, seq<Byte>>, p: Modulus): (m: map<nat, int>)
    ensures m.Keys == others.Keys
  {
    map s | s in others :: FromBytes(others[s], p)
  }

  /** The value that all the parties together reveal. */
  ghost function Opened(own: int, m: map<nat, int>, p: Modulus): (r: int)
    ensures Element(r, p)
  {
    Reduce(own + SetSum(m.Keys, m), p)
  }

  /** A difference counts as positive in the lower half of the field. */
  function GreaterBit(total: int, p: Modulus): int {
    if total != 0 && total < p / 2 then 1 else 0
  }

  function BitShare(total: int, myIndex: nat, p: Modulus): int {
    if myIndex == 0 then GreaterBit(total, p) else 0
  }

  predicate BitLenInRange(bitLen: int) {
    0 < bitLen <= 126
  }

  ghost function CompareSpec(diff: int, myIndex: nat, a: Answer, p: Modulus): ShareOrError {
    if a.Gathers? then Share(BitShare(Opened(diff, Decoded(a.others, p), p), myIndex, p)) else Error
  }

  lemma AddReduced(sum: int, v: int, p: Modulus)
    ensures Add(Reduce(sum, p), v, p) == Reduce(sum + v, p)
  {
    CongAdd(Reduce(sum, p), sum, v, v, p);
  }

  /** Adds every peer's value to the own one, in whatever order the map yields them. */
  method AddAll(diff: int, others: map<nat, seq<Byte>>, p: Modulus) returns (total: int)
    requires Element(diff, p)
    ensures total == Opened(diff, Decoded(others, p), p)
  {
    hide Reduce, Cong, FromBytes;
    total := diff;
    ReduceElement(diff, p);
    ghost var m := Decoded(others, p);
    ghost var exact := diff;
    var todo := others.Keys;
    while todo != {}
      invariant todo <= others.Keys && total == Reduce(exact, p)
      invariant exact + SetSum(todo, m) == diff + SetSum(m.Keys, m)
      decreases todo
    {
      var s :| s in todo;
      SetSumRemove(todo, m, s);
      AddReduced(exact, m[s], p);
      exact := exact + m[s];
      total := Add(total, FromBytes(others[s], p), p);
      todo := todo - {s};
    }
  }

  method SecureCompare(x: int, y: int, myIndex: nat, peers: PeerNetwork, bitLen: int, p: Modulus)
    returns (r: ShareOrError)
    modifies peers
    ensures bitLen <= 0 || bitLen > 126 ==> r == Error && unchanged(peers)
    ensures 0 < bitLen <= 126 ==>
      && peers.round == old(peers.round) + 1
      && peers.sent == old(peers.sent) + [Bytes(Sub(x, y, p))]
      && r == CompareSpec(Sub(x, y, p), myIndex, peers.AnswerTo(peers.round), p)
  {
    if bitLen <= 0 || bitLen > 126 {
      return Error;
    }
    var diff := Sub(x, y, p);
    var round := peers.NextRound();
    var ok := peers.Broadcast(round, Bytes(diff));
    if !ok {
      return Error;
    }
    var others;
    ok, others := peers.Gather(round);
    if !ok {
      return Error;
    }
    var total := AddAll(diff, others, p);
    var gt := 0;
    if total != 0 && total < p / 2 {
      gt := 1;
    }
    if myIndex == 0 {
      return Share(gt);
    }
    return Share(0);
  }

  // ---- Secure multiplication ----

  function DecodeAll(others: map<nat, seq<Byte>>): (m: map<nat, PairResult>)
    ensures m.Keys == others.Keys
  {
    map s | s in others :: DecodePair(others[s])
  }

  predicate AllPairs(pairs: map<nat, PairResult>) {
    forall s :: s in pairs ==> pairs[s].Pair?
  }

  function FirstsOf(pairs: map<nat, PairResult>, p: Modulus): (m: map<nat, int>)
    requires AllPairs(pairs)
    ensures m.Keys == pairs.Keys
  {
    map s | s in pairs :: FromBytes(pairs[s].a, p)
  }

  function SecondsOf(pairs: map<nat, PairResult>, p: Modulus): (m: map<nat, int>)
    requires AllPairs(pairs)
    ensures m.Keys == pairs.Keys
  {
    map s | s in pairs :: FromBytes(pairs[s].b, p)
  }

  ghost function MulSpec(x: int, y: int, myIndex: nat, t: SharedTriple, a: Answer, p: Modulus): ShareOrError {
    if a.Gathers? && AllPairs(DecodeAll(a.others)) then
      var pairs := DecodeAll(a.others);
      var (d, e) := MulOpen(x, y, t, p);
      Share(MulFinalize(Opened(d, FirstsOf(pairs, p), p), Opened(e, SecondsOf(pairs, p), p), t, myIndex, p))
    else Error
  }

  function MulPayload(x: int, y: int, t: SharedTriple, p: Modulus): seq<Byte> {
    var (d, e) := MulOpen(x, y, t, p);
    EncodePair(Bytes(d), Bytes(e))
  }

  /** Adds every peer's pair to the own one; a malformed pair is an error. */
  method AddAllPairs(dShare: int, eShare: int, pairs: map<nat, PairResult>, p: Modulus)
    returns (ok: bool, d: int, e: int)
    requires Element(dShare, p) && Element(eShare, p)
    ensures ok <==> AllPairs(pairs)
    ensures ok ==> d == Opened(dShare, FirstsOf(pairs, p), p) && e == Opened(eShare, SecondsOf(pairs, p), p)
  {
    hide Reduce, Cong, FromBytes;
    d, e := dShare, eShare;
    ReduceElement(dShare, p);
    ReduceElement(eShare, p);
    ghost var allPairs := AllPairs(pairs);
    ghost var ds := if allPairs then FirstsOf(pairs, p) else map s | s in pairs :: 0;
    ghost var es := if allPairs then SecondsOf(pairs, p) else map s | s in pairs :: 0;
    ghost var dExact, eExact := dShare, eShare;
    var todo := pairs.Keys;
    while todo != {}
      invariant todo <= pairs.Keys
      invariant forall s :: s in pairs && s !in todo ==> pairs[s].Pair?
      invariant allPairs ==> d == Reduce(dExact, p) && dExact + SetSum(todo, ds) == dShare + SetSum(ds.Keys, ds)
      invariant allPairs ==> e == Reduce(eExact, p) && eExact + SetSum(todo, es) == eShare + SetSum(es.Keys, es)
      decreases todo
    {
      var s :| s in todo;
      var pair := pairs[s];
      if pair.BadPair? {
        return false, d, e;
      }
      SetSumRemove(todo, ds, s);
      SetSumRemove(todo, es, s);
      AddReduced(dExact, ds[s], p);
      AddReduced(eExact, es[s], p);
      dExact, eExact := dExact + ds[s], eExact + es[s];
      d, e := Add(d, FromBytes(pair.a, p), p), Add(e, FromBytes(pair.b, p), p);
      todo := todo - {s};
    }
    ok := true;
  }

  method SecureMul(x: int, y: int, myIndex: nat, t: SharedTriple, peers: PeerNetwork, p: Modulus)
    returns (r: ShareOrError)
    modifies peers
    ensures peers.round == old(peers.round) + 1
    ensures peers.sent == old(peers.sent) + [MulPayload(x, y, t, p)]
    ensures peers.sent == old(peers.sent) + [EncodePair(Bytes(Sub(x, t.A, p)), Bytes(Sub(y, t.B, p)))]
    ensures r == MulSpec(x, y, myIndex, t, peers.AnswerTo(peers.round), p)
  {
    var (dShare, eShare) := MulOpen(x, y, t, p);
    var round := peers.NextRound();
    var ok := peers.Broadcast(round, EncodePair(Bytes(dShare), Bytes(eShare)));
    if !ok {
      return Error;
    }
    var others;
    ok, others := peers.Gather(round);
    if !ok {
      return Error;
    }
    var d, e;
    ok, d, e := AddAllPairs(dShare, eShare, DecodeAll(others), p);
    if !ok {
      return Error;
    }
    return Share(MulFinalize(d, e, t, myIndex, p));
  }
}
