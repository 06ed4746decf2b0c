/**
 * Dealing over the wire: when the task a node decodes is the task the coordinator dealt to it. The
 * encoders leave out a share or triple that is all defaults, so a share of zero in slot 0 is lost.
 */
module Delivery {
  import opened Options
  import opened Arithmetic
  import opened Field
  import opened Sharing
  import opened TaskParts
  import W = Worker
  import L = Lockstep
  import C = Coordinator
  import M = Messages
  import Wire
  import Radix

  /** What a dealt task travels with. */
  datatype Envelope = Envelope(
    sessionId: M.Text, nodeId: Wire.Int32, op: M.Text, parties: Wire.Int32, peers: seq<M.PeerEntry>)

  function Packed(e: Envelope, t: C.WireTask): M.Task
    requires -0x8000_0000 <= t.bitLen < 0x8000_0000
  {
    M.Task(e.sessionId, e.nodeId, e.op, e.parties, t.bitLen, true, e.peers, t.shares, t.triples)
  }

  predicate EnvelopeFits(e: Envelope) {
    && |e.sessionId| < Wire.TWO_63 && |e.op| < Wire.TWO_63
    && (forall i :: 0 <= i < |e.peers| ==> M.PeerFits(e.peers[i]))
  }

  // ---- Field elements are short ----

  lemma {:induction false} VarintIsShort(v: nat, k: nat)
    requires k <= 9 && v < Wire.Left(k)
    ensures |Wire.AppendVarint(v)| <= 10 - k
    decreases 9 - k
  {
    if k < 9 && v >= 128 {
      VarintIsShort(v / 128, k + 1);
    }
  }

  lemma SmallVarint(v: nat)
    requires v < 0x1_0000_0000
    ensures |Wire.AppendVarint(v)| <= 10
  {
    assert Wire.Left(9) == 2 && Wire.Left(8) == 256 && Wire.Left(7) == 32768 && Wire.Left(6) == 4194304;
    assert Wire.Left(5) == 0x2000_0000 && Wire.Left(4) == 0x10_0000_0000;
    VarintIsShort(v, 4);
  }

  lemma BytesFieldIsShort(num: nat, bs: seq<Byte>)
    requires num < 16 && |bs| <= 16
    ensures |Wire.AppendFields(M.BytesField(num, bs))| <= 40
  {
    SmallVarint(8 * num + 2);
    SmallVarint(|bs|);
    hide Wire.AppendVarint;
    if bs != [] {
      assert M.BytesField(num, bs)[1..] == [];
    }
  }

  lemma VarintFieldIsShort(num: nat, v: nat)
    requires num < 16 && v < 0x1_0000_0000
    ensures |Wire.AppendFields(M.VarintField(num, v))| <= 20
  {
    SmallVarint(8 * num);
    SmallVarint(v);
    hide Wire.AppendVarint;
    if v != 0 {
      assert M.VarintField(num, v)[1..] == [];
    }
  }

  lemma ShareIsShort(s: ShareData)
    requires M.SlotFits(s) && |s.value| <= 16
    ensures M.ShareFits(s)
  {
    hide Wire.AppendFields, M.BytesField, M.VarintField;
    VarintFieldIsShort(1, Wire.ToUint32(s.slot));
    BytesFieldIsShort(2, s.value);
    Wire.AppendFieldsAppend(M.VarintField(1, Wire.ToUint32(s.slot)), M.BytesField(2, s.value));
  }

  lemma TripleIsShort(t: TripleData)
    requires |t.A| <= 16 && |t.B| <= 16 && |t.C| <= 16
    ensures M.TripleFits(t)
  {
    hide Wire.AppendFields, M.BytesField;
    BytesFieldIsShort(1, t.A);
    BytesFieldIsShort(2, t.B);
    BytesFieldIsShort(3, t.C);
    Wire.AppendFieldsAppend(M.BytesField(2, t.B), M.BytesField(3, t.C));
    Wire.AppendFieldsAppend(M.BytesField(1, t.A), M.BytesField(2, t.B) + M.BytesField(3, t.C));
  }

  lemma ElementIsShort(x: int, p: Modulus)
    requires Element(x, p) && p <= L.MAX_MODULUS
    ensures |Bytes(x)| <= 16
    ensures Bytes(x) == [] <==> x == 0
  {
    L.BytesShort(x, p);
    BytesAreDigits(x);
  }

  // ---- What is dealt ----

  predicate Dealable(slots: seq<seq<int>>, triples: seq<seq<SharedTriple>>, n: nat, p: Modulus) {
    C.GoodSlots(slots, n, p) && C.GoodTriples(triples, n, p) && p <= L.MAX_MODULUS && |slots| < 0x8000_0000
  }

  /** What node j decodes. */
  function Received(e: Envelope, op: W.Op, slots: seq<seq<int>>, triples: seq<seq<SharedTriple>>, j: nat)
    : Option<M.Task>
    requires forall i :: 0 <= i < |slots| ==> j < |slots[i]|
    requires forall i :: 0 <= i < |triples| ==> j < |triples[i]|
  {
    M.DecodeTask(M.EncodeTask(Packed(e, C.NodeTask(op, j, slots, triples))))
  }

  lemma DealtTaskFits(
      e: Envelope, op: W.Op, n: nat, slots: seq<seq<int>>, triples: seq<seq<SharedTriple>>, j: nat, p: Modulus)
    requires Dealable(slots, triples, n, p) && j < n && EnvelopeFits(e)
    ensures M.TaskFits(Packed(e, C.NodeTask(op, j, slots, triples)))
  {
    hide M.ShareFits, M.TripleFits, M.PeerFits, Bytes, ValidTriple, Element;
    var t := C.NodeTask(op, j, slots, triples);
    C.TriplesAreElements(triples, n, j, p);
    forall i | 0 <= i < |t.shares|
      ensures M.ShareFits(t.shares[i])
    {
      assert Element(slots[i][j], p);
      ElementIsShort(slots[i][j], p);
      ShareIsShort(t.shares[i]);
    }
    forall i | 0 <= i < |t.triples|
      ensures M.TripleFits(t.triples[i])
    {
      ElementIsShort(triples[i][j].A, p);
      ElementIsShort(triples[i][j].B, p);
      ElementIsShort(triples[i][j].C, p);
      TripleIsShort(t.triples[i]);
    }
  }

  /** Nothing in the task of node j is all defaults. */
  predicate NothingVanishes(slots: seq<seq<int>>, triples: seq<seq<SharedTriple>>, peers: seq<M.PeerEntry>, j: nat)
    requires forall i :: 0 <= i < |slots| ==> j < |slots[i]|
    requires forall i :: 0 <= i < |triples| ==> j < |triples[i]|
  {
    && (slots != [] ==> slots[0][j] != 0)
    && (forall i :: 0 <= i < |triples| ==> !(triples[i][j].A == 0 && triples[i][j].B == 0 && triples[i][j].C == 0))
    && M.EMPTY_PEER !in peers
  }

  lemma SharesVanish(op: W.Op, n: nat, slots: seq<seq<int>>, triples: seq<seq<SharedTriple>>, j: nat, p: Modulus)
    requires Dealable(slots, triples, n, p) && j < n
    ensures M.EMPTY_SHARE in C.NodeTask(op, j, slots, triples).shares <==> slots != [] && slots[0][j] == 0
  {
    var shares := C.NodeTask(op, j, slots, triples).shares;
    if slots != [] {
      assert Element(slots[0][j], p);
      ElementIsShort(slots[0][j], p);
      hide Bytes;
      assert shares[0].slot == 0 && shares[0] in shares;
      assert shares[0] == M.EMPTY_SHARE <==> slots[0][j] == 0;
    }
  }

  lemma TriplesVanish(op: W.Op, n: nat, slots: seq<seq<int>>, triples: seq<seq<SharedTriple>>, j: nat, p: Modulus)
    requires Dealable(slots, triples, n, p) && j < n
    ensures M.EMPTY_TRIPLE in C.NodeTask(op, j, slots, triples).triples <==>
            exists i :: 0 <= i < |triples| && triples[i][j].A == 0 && triples[i][j].B == 0 && triples[i][j].C == 0
  {
    var ts := C.NodeTask(op, j, slots, triples).triples;
    C.TriplesAreElements(triples, n, j, p);
    hide Bytes, ValidTriple;
    forall i | 0 <= i < |triples|
      ensures ts[i] == M.EMPTY_TRIPLE <==> triples[i][j].A == 0 && triples[i][j].B == 0 && triples[i][j].C == 0
    {
      ElementIsShort(triples[i][j].A, p);
      ElementIsShort(triples[i][j].B, p);
      ElementIsShort(triples[i][j].C, p);
    }
    if i :| 0 <= i < |triples| && triples[i][j].A == 0 && triples[i][j].B == 0 && triples[i][j].C == 0 {
      assert ts[i] in ts;
    }
  }

  /**
   * A node decodes exactly the task that was dealt to it if and only if its share of slot 0 is not zero,
   * none of its triples is three zeros, and no peer has id 0 and no address.
   */
  lemma DeliveredAsDealt(
      e: Envelope, op: W.Op, n: nat, slots: seq<seq<int>>, triples: seq<seq<SharedTriple>>, j: nat, p: Modulus)
    requires Dealable(slots, triples, n, p) && j < n && EnvelopeFits(e)
    ensures var t := Packed(e, C.NodeTask(op, j, slots, triples));
            Received(e, op, slots, triples, j) == Some(t) <==> NothingVanishes(slots, triples, e.peers, j)
  {
    DealtTaskFits(e, op, n, slots, triples, j, p);
    SharesVanish(op, n, slots, triples, j, p);
    TriplesVanish(op, n, slots, triples, j, p);
    var t := Packed(e, C.NodeTask(op, j, slots, triples));
    hide M.DecodeTask, M.EncodeTask, M.TaskFits, C.NodeTask;
    M.TaskSurvives(t);
  }

  /** Whatever vanishes, the rest of the task arrives: whose it is, what is to be done and by how many. */
  lemma EnvelopeArrives(
      e: Envelope, op: W.Op, n: nat, slots: seq<seq<int>>, triples: seq<seq<SharedTriple>>, j: nat, p: Modulus)
    requires Dealable(slots, triples, n, p) && j < n && EnvelopeFits(e)
    ensures var m := Received(e, op, slots, triples, j);
            && m.Some? && m.value.sessionId == e.sessionId && m.value.nodeId == e.nodeId && m.value.op == e.op
            && m.value.partyCount == e.parties && m.value.bitLen == 64 && m.value.ready
            && forall x :: x in m.value.peers <==> x in e.peers && (x.nodeId != 0 || x.addr != [])
  {
    hide Received, M.Kept, C.NodeTask;
    ReceivedIsPruned(e, op, n, slots, triples, j, p);
    PeersArrive(e.peers);
    assert C.NodeTask(op, j, slots, triples).bitLen == 64 by { BitLenSent(op, n, slots, triples, j, p); }
  }

  lemma BitLenSent(op: W.Op, n: nat, slots: seq<seq<int>>, triples: seq<seq<SharedTriple>>, j: nat, p: Modulus)
    requires Dealable(slots, triples, n, p) && j < n
    ensures C.NodeTask(op, j, slots, triples).bitLen == 64
  {
  }

  lemma {:induction false} PeersArrive(peers: seq<M.PeerEntry>)
    ensures forall x :: x in M.Kept(peers, M.EMPTY_PEER) <==> x in peers && (x.nodeId != 0 || x.addr != [])
  {
    if peers != [] {
      PeersArrive(peers[1..]);
      assert peers == [peers[0]] + peers[1..];
    }
  }

  /** And then what it parses is its row of the shares and triples, as the protocol needs. */
  lemma DeliveredIsParsed(
      e: Envelope, op: W.Op, n: nat, slots: seq<seq<int>>, triples: seq<seq<SharedTriple>>, j: nat, p: Modulus)
    requires Dealable(slots, triples, n, p) && j < n && EnvelopeFits(e) && NothingVanishes(slots, triples, e.peers, j)
    ensures var m := Received(e, op, slots, triples, j);
            m.Some? &&
            W.Task(op, W.ParseSlots(m.value.shares, p), W.ParseTriples(m.value.triples, p), m.value.bitLen)
            == C.Dealt(op, n, slots, triples, p).tasks[j]
  {
    DeliveredAsDealt(e, op, n, slots, triples, j, p);
    hide Received, NothingVanishes, W.ParseSlots, W.ParseTriples;
  }

  // ---- What a share of zero in slot 0 does ----

  lemma OnlyFirstVanishes(op: W.Op, n: nat, slots: seq<seq<int>>, triples: seq<seq<SharedTriple>>, j: nat, p: Modulus)
    requires Dealable(slots, triples, n, p) && j < n && slots != [] && slots[0][j] == 0
    ensures var rest := M.Kept(C.NodeTask(op, j, slots, triples).shares, M.EMPTY_SHARE);
            && |rest| == |slots| - 1
            && forall i :: 0 <= i < |rest| ==> rest[i] == ShareData(i + 1, Bytes(slots[i + 1][j]))
  {
    var shares := C.NodeTask(op, j, slots, triples).shares;
    assert Element(slots[0][j], p);
    ElementIsShort(slots[0][j], p);
    hide Bytes;
    assert shares[0] == M.EMPTY_SHARE;
    forall i | 0 <= i < |shares[1..]|
      ensures shares[1..][i] != M.EMPTY_SHARE
    {
      assert shares[1..][i].slot == i + 1;
    }
    M.Keeping(shares[1..], M.EMPTY_SHARE);
  }

  lemma ReceivedIsPruned(
      e: Envelope, op: W.Op, n: nat, slots: seq<seq<int>>, triples: seq<seq<SharedTriple>>, j: nat, p: Modulus)
    requires Dealable(slots, triples, n, p) && j < n && EnvelopeFits(e)
    ensures Received(e, op, slots, triples, j) == Some(M.Pruned(Packed(e, C.NodeTask(op, j, slots, triples))))
  {
    DealtTaskFits(e, op, n, slots, triples, j, p);
    hide M.DecodeTask, M.EncodeTask, M.TaskFits, M.Pruned;
    M.TaskSurvivesPruned(Packed(e, C.NodeTask(op, j, slots, triples)));
  }

  /** The node is left with its row of shares without the first: every later slot is read as the one before it. */
  lemma ZeroShareShiftsSlots(
      e: Envelope, op: W.Op, n: nat, slots: seq<seq<int>>, triples: seq<seq<SharedTriple>>, j: nat, p: Modulus)
    requires Dealable(slots, triples, n, p) && j < n && EnvelopeFits(e) && slots != [] && slots[0][j] == 0
    ensures var m := Received(e, op, slots, triples, j);
            && m.Some?
            && |W.ParseSlots(m.value.shares, p)| == |slots| - 1
            && forall i :: 0 <= i < |slots| - 1 ==> W.ParseSlots(m.value.shares, p)[i] == slots[i + 1][j]
  {
    hide Received, EnvelopeFits, M.Kept, W.ParseSlots,
         C.NodeTask;
    ReceivedIsPruned(e, op, n, slots, triples, j, p);
    OnlyFirstVanishes(op, n, slots, triples, j, p);
    RestParses(slots, n, M.Kept(C.NodeTask(op, j, slots, triples).shares, M.EMPTY_SHARE), j, p);
  }

  lemma RestParses(slots: seq<seq<int>>, n: nat, shares: seq<ShareData>, j: nat, p: Modulus)
    requires slots != [] && j < n && C.GoodSlots(slots, n, p) && |shares| == |slots| - 1
    requires forall i :: 0 <= i < |shares| ==> shares[i] == ShareData(i + 1, Bytes(slots[i + 1][j]))
    ensures |W.ParseSlots(shares, p)| == |shares|
    ensures forall i :: 0 <= i < |shares| ==> W.ParseSlots(shares, p)[i] == slots[i + 1][j]
  {
    hide FromBytes, Bytes;
    W.SortBySlotKeepsOrder(shares);
    forall i | 0 <= i < |shares|
      ensures FromBytes(shares[i].value, p) == slots[i + 1][j]
    {
      assert Element(slots[i + 1][j], p);
      FromBytesBytes(slots[i + 1][j], p);
    }
  }

  /** So a comparison to whose first party's input some node holds the share zero is aborted by that node. */
  lemma ZeroShareAbortsComparison(
      e: Envelope, n: nat, slots: seq<seq<int>>, triples: seq<seq<SharedTriple>>, j: nat, p: Modulus)
    requires Dealable(slots, triples, n, p) && j < n && EnvelopeFits(e) && |slots| == 2 && slots[0][j] == 0
    ensures var m := Received(e, W.OpComparison, slots, triples, j);
            m.Some? &&
            W.Start(W.Task(W.OpComparison, W.ParseSlots(m.value.shares, p), W.ParseTriples(m.value.triples, p),
                           m.value.bitLen), p) == W.Aborted
  {
    ZeroShareShiftsSlots(e, W.OpComparison, n, slots, triples, j, p);
    hide Received, W.ParseSlots, W.ParseTriples;
  }
}
