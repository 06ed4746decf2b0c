/** One node's computation, as the loop the node runs and as a machine that moves once per round. */
module Worker {
  import opened Arithmetic
  import opened Field
  import opened Sharing
  import opened Operations
  import opened TaskParts

  datatype Op = OpSum | OpAverage | OpComparison | OpMax | OpUnknown

  datatype Task = Task(op: Op, slots: seq<int>, triples: seq<SharedTriple>, bitLen: int)

  /** Where a node stands between two rounds. */
  datatype Local =
    | Comparing(i: nat, running: int)
    | Multiplying(i: nat, running: int, bit: int)
    | Finished(value: int)
    | Aborted
  {
    predicate Busy() {
      Comparing? || Multiplying?
    }
  }

  function BitLen(t: Task): int {
    if t.bitLen <= 0 then 32 else t.bitLen
  }

  /** The top of the fold over the slots. */
  function NextSlot(t: Task, i: nat, running: int): Local {
    if i >= |t.slots| then Finished(running)
    else if !BitLenInRange(BitLen(t)) then Aborted
    else Comparing(i, running)
  }

  function Start(t: Task, p: Modulus): Local {
    if t.slots == [] then Aborted
    else
      match t.op
      case OpSum => Finished(LocalSum(t.slots, p))
      case OpAverage => Finished(LocalSum(t.slots, p))
      case OpComparison => if |t.slots| < 2 then Aborted else NextSlot(t, 1, t.slots[0])
      case OpMax => NextSlot(t, 1, t.slots[0])
      case OpUnknown => Aborted
  }

  /** A task that names no bit length runs as one that names 32. */
  lemma UnsetBitLen(t: Task, p: Modulus)
    requires t.bitLen <= 0
    ensures Start(t, p) == Start(t.(bitLen := 32), p)
  {
  }

  function LocalSum(slots: seq<int>, p: Modulus): int
    requires slots != []
  {
    if |slots| == 1 then slots[0] else Add(LocalSum(slots[..|slots| - 1], p), slots[|slots| - 1], p)
  }

  /** A local state that belongs to the task. */
  predicate Fits(t: Task, l: Local) {
    && (l.Comparing? ==> 1 <= l.i < |t.slots| && BitLenInRange(BitLen(t)) && (t.op.OpComparison? || t.op.OpMax?))
    && (l.Multiplying? ==> 1 <= l.i < |t.slots| && l.i <= |t.triples| && BitLenInRange(BitLen(t)) && t.op.OpMax?)
  }

  /** What the node broadcasts in its next round. */
  function Payload(t: Task, l: Local, p: Modulus): seq<Byte>
    requires Fits(t, l) && l.Busy()
  {
    var diff := Sub(l.running, t.slots[l.i], p);
    if l.Comparing? then Bytes(diff) else MulPayload(l.bit, diff, t.triples[l.i - 1], p)
  }

  /** The effect of one round: what the node does with the environment's answer. */
  ghost function Advance(me: nat, t: Task, l: Local, a: Answer, p: Modulus): (l': Local)
    requires Fits(t, l) && l.Busy()
    ensures Fits(t, l')
  {
    var diff := Sub(l.running, t.slots[l.i], p);
    if l.Comparing? then
      match CompareSpec(diff, me, a, p)
      case Error => Aborted
      case Share(bit) =>
        if t.op.OpComparison? then Finished(bit)
        else if l.i > |t.triples| then Aborted
        else Multiplying(l.i, l.running, bit)
    else
      match MulSpec(l.bit, diff, me, t.triples[l.i - 1], a, p)
      case Error => Aborted
      case Share(prod) => NextSlot(t, l.i + 1, Add(t.slots[l.i], prod, p))
  }

  /** How a node's run ends and what it broadcast, one payload per round it started. */
  datatype Trace = Trace(final: Local, sent: seq<seq<Byte>>)

  /** Rounds played one after another; the network's answers past the end are timeouts. */
  ghost function Play(me: nat, t: Task, l: Local, answers: seq<Answer>, p: Modulus): (tr: Trace)
    requires Fits(t, l)
    ensures !tr.final.Busy()
    decreases |answers|
  {
    if !l.Busy() then Trace(l, [])
    else
      var rest :=
        if answers == [] then Trace(Aborted, [])
        else Play(me, t, Advance(me, t, l, answers[0], p), answers[1..], p);
      rest.(sent := [Payload(t, l, p)] + rest.sent)
  }

  /** The run from state l in round r + 1, with some payloads already sent. */
  ghost function PlayFrom(
      sent: seq<seq<Byte>>, me: nat, t: Task, l: Local, answers: seq<Answer>, r: nat, p: Modulus): Trace
    requires Fits(t, l)
  {
    var tr := Play(me, t, l, Drop(answers, r), p);
    tr.(sent := sent + tr.sent)
  }

  ghost function Outcome(l: Local): ShareOrError
    requires !l.Busy()
  {
    if l.Finished? then Share(l.value) else Error
  }

  lemma TimeoutAborts(me: nat, t: Task, l: Local, p: Modulus)
    requires Fits(t, l) && l.Busy()
    ensures Advance(me, t, l, GatherFails, p) == Aborted
  {
  }

  /** Playing from round r on sends one payload and takes the answer to round r first. */
  lemma PlayStep(sent: seq<seq<Byte>>, me: nat, t: Task, l: Local, answers: seq<Answer>, r: nat, p: Modulus)
    requires Fits(t, l) && l.Busy()
    ensures
      var a := if r < |answers| then answers[r] else GatherFails;
      PlayFrom(sent, me, t, l, answers, r, p)
      == PlayFrom(sent + [Payload(t, l, p)], me, t, Advance(me, t, l, a, p), answers, r + 1, p)
  {
    hide Payload, Advance, NextSlot;
    var a := if r < |answers| then answers[r] else GatherFails;
    TimeoutAborts(me, t, l, p);
    var rest := Play(me, t, Advance(me, t, l, a, p), Drop(answers, r + 1), p);
    if r < |answers| {
      assert Drop(answers, r)[1..] == Drop(answers, r + 1);
    }
    assert sent + ([Payload(t, l, p)] + rest.sent) == (sent + [Payload(t, l, p)]) + rest.sent;
  }

  /** A node that has stopped sends nothing more. */
  lemma PlayEnds(sent: seq<seq<Byte>>, me: nat, t: Task, l: Local, answers: seq<Answer>, r: nat, p: Modulus)
    requires !l.Busy()
    ensures PlayFrom(sent, me, t, l, answers, r, p) == Trace(l, sent)
  {
    assert sent + [] == sent;
  }

  function Drop(answers: seq<Answer>, r: nat): seq<Answer> {
    if r <= |answers| then answers[r..] else []
  }

  /** The node's own loop computes, and broadcasts, exactly what the machine does round by round. */
  method Compute(me: nat, t: Task, peers: PeerNetwork, p: Modulus) returns (r: ShareOrError)
    requires peers.round == 0 && peers.sent == []
    modifies peers
    ensures
      var tr := Play(me, t, Start(t, p), peers.answers, p);
      r == Outcome(tr.final) && peers.sent == tr.sent
  {
    if t.slots == [] {
      return Error;
    }
    var bitLen := t.bitLen;
    if bitLen <= 0 {
      bitLen := 32;
    }
    match t.op
    case OpSum | OpAverage =>
      var acc := t.slots[0];
      for i := 1 to |t.slots|
        invariant acc == LocalSum(t.slots[..i], p)
      {
        assert t.slots[..i + 1][..i] == t.slots[..i];
        acc := Add(acc, t.slots[i], p);
      }
      assert t.slots[..|t.slots|] == t.slots;
      return Share(acc);
    case OpComparison =>
      if |t.slots| < 2 {
        return Error;
      }
      r := SecureCompare(t.slots[0], t.slots[1], me, peers, bitLen, p);
      if BitLenInRange(bitLen) {
        PlayStep([], me, t, Start(t, p), peers.answers, 0, p);
      }
    case OpMax =>
      r := ComputeMax(me, t, bitLen, peers, p);
    case OpUnknown =>
      return Error;
  }

  method ComputeMax(me: nat, t: Task, bitLen: int, peers: PeerNetwork, p: Modulus) returns (r: ShareOrError)
    requires t.op.OpMax? && t.slots != [] && peers.round == 0 && peers.sent == [] && bitLen == BitLen(t)
    modifies peers
    ensures
      var tr := PlayFrom([], me, t, NextSlot(t, 1, t.slots[0]), peers.answers, 0, p);
      r == Outcome(tr.final) && peers.sent == tr.sent
  {
    hide Advance;
    var running := t.slots[0];
    var i := 1;
    while i < |t.slots|
      invariant 1 <= i <= |t.slots| && peers.round == 2 * i - 2
      invariant PlayFrom(peers.sent, me, t, NextSlot(t, i, running), peers.answers, 2 * i - 2, p)
             == PlayFrom([], me, t, NextSlot(t, 1, t.slots[0]), peers.answers, 0, p)
    {
      var next := CompareAndSelect(me, t, i, running, bitLen, peers, p);
      if next.Error? {
        return Error;
      }
      running := next.value;
      i := i + 1;
    }
    return Share(running);
  }

  /** One turn of the fold: compare the running share with slot i, then keep the larger one. */
  method CompareAndSelect(me: nat, t: Task, i: nat, running: int, bitLen: int, peers: PeerNetwork, p: Modulus)
    returns (next: ShareOrError)
    requires t.op.OpMax? && 1 <= i < |t.slots| && peers.round == 2 * i - 2 && bitLen == BitLen(t)
    modifies peers
    ensures
      PlayFrom(old(peers.sent), me, t, NextSlot(t, i, running), peers.answers, 2 * i - 2, p)
      == if next.Error? then Trace(Aborted, peers.sent)
         else PlayFrom(peers.sent, me, t, NextSlot(t, i + 1, next.value), peers.answers, 2 * i, p)
    ensures next.Share? ==> peers.round == 2 * i
  {
    var cursor := i - 1;
    var cmp := Compare(me, t, i, running, bitLen, peers, p);
    if cmp.Error? || cursor >= |t.triples| {
      return Error;
    }
    next := Select(me, t, i, running, cmp.value, peers, p);
  }

  /** The comparison half of a turn; without a triple left the turn ends here. */
  method Compare(me: nat, t: Task, i: nat, running: int, bitLen: int, peers: PeerNetwork, p: Modulus)
    returns (cmp: ShareOrError)
    requires t.op.OpMax? && 1 <= i < |t.slots| && peers.round == 2 * i - 2 && bitLen == BitLen(t)
    modifies peers
    ensures cmp.Share? ==> BitLenInRange(BitLen(t)) && peers.round == 2 * i - 1
    ensures
      PlayFrom(old(peers.sent), me, t, NextSlot(t, i, running), peers.answers, 2 * i - 2, p)
      == if cmp.Error? || i > |t.triples| then Trace(Aborted, peers.sent)
         else PlayFrom(peers.sent, me, t, Multiplying(i, running, cmp.value), peers.answers, 2 * i - 1, p)
  {
    ghost var sent := peers.sent;
    cmp := SecureCompare(running, t.slots[i], me, peers, bitLen, p);
    if !BitLenInRange(bitLen) {
      return;
    }
    PlayStep(sent, me, t, Comparing(i, running), peers.answers, 2 * i - 2, p);
    if cmp.Error? || i > |t.triples| {
      assert Advance(me, t, Comparing(i, running), peers.AnswerTo(2 * i - 1), p) == Aborted;
      return;
    }
    assert Advance(me, t, Comparing(i, running), peers.AnswerTo(2 * i - 1), p) == Multiplying(i, running, cmp.value);
  }

  lemma SelectStep(sent: seq<seq<Byte>>, me: nat, t: Task, i: nat, running: int, bit: int,
                   answers: seq<Answer>, prod: ShareOrError, p: Modulus)
    requires Fits(t, Multiplying(i, running, bit)) && 1 <= i
    requires
      var a := if 2 * i <= |answers| then answers[2 * i - 1] else GatherFails;
      prod == MulSpec(bit, Sub(running, t.slots[i], p), me, t.triples[i - 1], a, p)
    ensures
      var sent' := sent + [MulPayload(bit, Sub(running, t.slots[i], p), t.triples[i - 1], p)];
      PlayFrom(sent, me, t, Multiplying(i, running, bit), answers, 2 * i - 1, p)
      == if prod.Error? then Trace(Aborted, sent')
         else PlayFrom(sent', me, t, NextSlot(t, i + 1, Add(t.slots[i], prod.value, p)), answers, 2 * i, p)
  {
    hide MulSpec, MulPayload, Add, Sub, Play, PlayFrom, NextSlot;
    PlayStep(sent, me, t, Multiplying(i, running, bit), answers, 2 * i - 1, p);
    var sent' := sent + [MulPayload(bit, Sub(running, t.slots[i], p), t.triples[i - 1], p)];
    PlayEnds(sent', me, t, Aborted, answers, 2 * i, p);
  }

  /** The multiplication half of a turn. */
  method Select(me: nat, t: Task, i: nat, running: int, bit: int, peers: PeerNetwork, p: Modulus)
    returns (next: ShareOrError)
    requires t.op.OpMax? && 1 <= i < |t.slots| && i <= |t.triples| && peers.round == 2 * i - 1
    requires BitLenInRange(BitLen(t))
    modifies peers
    ensures peers.round == 2 * i
    ensures
      PlayFrom(old(peers.sent), me, t, Multiplying(i, running, bit), peers.answers, 2 * i - 1, p)
      == if next.Error? then Trace(Aborted, peers.sent)
         else PlayFrom(peers.sent, me, t, NextSlot(t, i + 1, next.value), peers.answers, 2 * i, p)
  {
    hide Reduce, MulSpec, MulPayload, Advance, Play, PlayFrom;
    ghost var sent := peers.sent;
    var diff := Sub(running, t.slots[i], p);
    var prod := SecureMul(bit, diff, me, t.triples[i - 1], peers, p);
    SelectStep(sent, me, t, i, running, bit, peers.answers, prod, p);
    if prod.Error? {
      return Error;
    }
    return Share(Add(t.slots[i], prod.value, p));
  }

  // ---- Reading a task off the wire ----

  function InsertBySlot(s: ShareData, sorted: seq<ShareData>): seq<ShareData> {
    if sorted == [] || s.slot < sorted[0].slot then [s] + sorted
    else [sorted[0]] + InsertBySlot(s, sorted[1..])
  }

  /** The stand-in for the library sort, which orders the shares by slot number. */
  function SortBySlot(shares: seq<ShareData>): seq<ShareData> {
    if shares == [] then []
    else InsertBySlot(shares[|shares| - 1], SortBySlot(shares[..|shares| - 1]))
  }

  function ParseSlots(shares: seq<ShareData>, p: Modulus): (r: seq<int>) {
    var ordered := SortBySlot(shares);
    seq(|ordered|, i requires 0 <= i < |ordered| => FromBytes(ordered[i].value, p))
  }

  function ParseTriples(triples: seq<TripleData>, p: Modulus): (r: seq<SharedTriple>) {
    seq(|triples|, i requires 0 <= i < |triples| =>
      SharedTriple(FromBytes(triples[i].A, p), FromBytes(triples[i].B, p), FromBytes(triples[i].C, p)))
  }

  predicate SlotsAscend(shares: seq<ShareData>) {
    forall i, j :: 0 <= i < j < |shares| ==> shares[i].slot < shares[j].slot
  }

  predicate InSlotOrder(shares: seq<ShareData>) {
    forall i, j :: 0 <= i < j < |shares| ==> shares[i].slot <= shares[j].slot
  }

  lemma {:induction false} InsertMembers(s: ShareData, sorted: seq<ShareData>)
    ensures multiset(InsertBySlot(s, sorted)) == multiset(sorted) + multiset{s}
    ensures forall x :: x in InsertBySlot(s, sorted) ==> x == s || x in sorted
  {
    if sorted != [] {
      assert sorted == [sorted[0]] + sorted[1..];
      InsertMembers(s, sorted[1..]);
    }
  }

  lemma {:induction false} InsertSorts(s: ShareData, sorted: seq<ShareData>)
    requires InSlotOrder(sorted)
    ensures InSlotOrder(InsertBySlot(s, sorted))
  {
    if sorted != [] && s.slot >= sorted[0].slot {
      InsertSorts(s, sorted[1..]);
      InsertMembers(s, sorted[1..]);
      var rest := InsertBySlot(s, sorted[1..]);
      assert forall x :: x in sorted[1..] ==> x in sorted;
      forall j | 0 <= j < |rest|
        ensures sorted[0].slot <= rest[j].slot
      {
        assert rest[j] in rest;
      }
    }
  }

  /** The shares in the order of their slots, none lost and none added, in whatever order they came. */
  lemma {:induction false} SortBySlotSorts(shares: seq<ShareData>)
    ensures multiset(SortBySlot(shares)) == multiset(shares)
    ensures InSlotOrder(SortBySlot(shares))
  {
    if shares != [] {
      var k := |shares| - 1;
      assert shares == shares[..k] + [shares[k]];
      SortBySlotSorts(shares[..k]);
      InsertMembers(shares[k], SortBySlot(shares[..k]));
      InsertSorts(shares[k], SortBySlot(shares[..k]));
    }
  }

  lemma {:induction false} InsertLast(s: ShareData, sorted: seq<ShareData>)
    requires forall i :: 0 <= i < |sorted| ==> sorted[i].slot < s.slot
    ensures InsertBySlot(s, sorted) == sorted + [s]
  {
    if sorted != [] {
      InsertLast(s, sorted[1..]);
      assert sorted == [sorted[0]] + sorted[1..];
    }
  }

  /** Shares dealt in slot order are left in that order. */
  lemma {:induction false} SortBySlotKeepsOrder(shares: seq<ShareData>)
    requires SlotsAscend(shares)
    ensures SortBySlot(shares) == shares
  {
    if shares != [] {
      var k := |shares| - 1;
      SortBySlotKeepsOrder(shares[..k]);
      InsertLast(shares[k], shares[..k]);
    }
  }
}
