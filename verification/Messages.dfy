/** The messages of the cluster: encoders that append field after field, decoders that loop over fields. */
module Messages {
  import opened Options
  import opened TaskParts
  import opened Wire

  type Text = seq<Byte>

  datatype PeerEntry = PeerEntry(nodeId: Int32, addr: Text)

  datatype Task = Task(
    sessionId: Text, nodeId: Int32, op: Text, partyCount: Int32, bitLen: Int32, ready: bool,
    peers: seq<PeerEntry>, shares: seq<ShareData>, triples: seq<TripleData>)

  datatype Msg = Msg(roundNum: Int32, senderId: Int32, sessionId: Text, data: seq<Byte>)

  const EMPTY_PEER := PeerEntry(0, [])
  const EMPTY_SHARE := ShareData(0, [])
  const EMPTY_TRIPLE := TripleData([], [], [])
  const EMPTY_TASK := Task([], 0, [], 0, 0, false, [], [], [])
  const EMPTY_MSG := Msg(0, 0, [], [])

  // ---- Fields at their default value are not sent ----

  function BytesField(num: nat, bs: seq<Byte>): seq<Value> {
    if bs == [] then [] else [Bytes(num, bs)]
  }

  function VarintField(num: nat, v: nat): seq<Value> {
    if v == 0 then [] else [Varint(num, v)]
  }

  function BoolField(num: nat, v: bool): seq<Value> {
    if v then [Varint(num, 1)] else []
  }

  // ---- Peers ----

  function PeerKind(num: nat): Kind {
    if num == 1 then VarintKind else if num == 2 then BytesKind else UnknownKind
  }

  function PeerFields(p: PeerEntry): seq<Value> {
    VarintField(1, ToUint32(p.nodeId)) + BytesField(2, p.addr)
  }

  function StorePeer(p: PeerEntry, f: Value): Option<PeerEntry> {
    match f
    case Varint(_, v) => Some(p.(nodeId := ToInt32(v)))
    case Bytes(_, bs) => Some(p.(addr := bs))
    case Skipped => Some(p)
  }

  function DecodePeer(b: seq<Byte>): Option<PeerEntry> {
    DecodeFrom(PeerKind, StorePeer, EMPTY_PEER, b)
  }

  function EncodePeer(p: PeerEntry): seq<Byte> {
    AppendFields(PeerFields(p))
  }

  lemma PeerSurvives(p: PeerEntry)
    requires |p.addr| < TWO_63
    ensures DecodePeer(EncodePeer(p)) == Some(p)
  {
    var fs, gs := VarintField(1, ToUint32(p.nodeId)), BytesField(2, p.addr);
    FieldsInvert(PeerKind, StorePeer, EMPTY_PEER, PeerFields(p));
    StoreAllAppend(StorePeer, EMPTY_PEER, fs, gs);
    Int32Survives(p.nodeId);
  }

  /** A peer is encoded as no bytes at all exactly when everything in it is at its default. */
  lemma PeerVanishes(p: PeerEntry)
    ensures EncodePeer(p) == [] <==> p == EMPTY_PEER
  {
    FieldsVanish(PeerFields(p));
  }

  lemma FieldsVanish(fs: seq<Value>)
    requires forall i :: 0 <= i < |fs| ==> !fs[i].Skipped?
    ensures AppendFields(fs) == [] <==> fs == []
  {
    if fs != [] {
      assert |AppendField(fs[0])| > 0;
    }
  }

  // ---- Shares ----

  function ShareKind(num: nat): Kind {
    if num == 1 then VarintKind else if num == 2 then BytesKind else UnknownKind
  }

  function ShareFields(s: ShareData): seq<Value> {
    VarintField(1, ToUint32(s.slot)) + BytesField(2, s.value)
  }

  function StoreShare(s: ShareData, f: Value): Option<ShareData> {
    match f
    case Varint(_, v) => Some(s.(slot := ToInt32(v)))
    case Bytes(_, bs) => Some(s.(value := bs))
    case Skipped => Some(s)
  }

  function DecodeShare(b: seq<Byte>): Option<ShareData> {
    DecodeFrom(ShareKind, StoreShare, EMPTY_SHARE, b)
  }

  function EncodeShare(s: ShareData): seq<Byte> {
    AppendFields(ShareFields(s))
  }

  predicate SlotFits(s: ShareData) {
    -0x8000_0000 <= s.slot < 0x8000_0000
  }

  lemma ShareSurvives(s: ShareData)
    requires SlotFits(s) && |s.value| < TWO_63
    ensures DecodeShare(EncodeShare(s)) == Some(s)
  {
    var fs, gs := VarintField(1, ToUint32(s.slot)), BytesField(2, s.value);
    FieldsInvert(ShareKind, StoreShare, EMPTY_SHARE, ShareFields(s));
    StoreAllAppend(StoreShare, EMPTY_SHARE, fs, gs);
    Int32Survives(s.slot);
  }

  lemma ShareVanishes(s: ShareData)
    requires SlotFits(s)
    ensures EncodeShare(s) == [] <==> s == EMPTY_SHARE
  {
    FieldsVanish(ShareFields(s));
  }

  // ---- Triples ----

  function TripleKind(num: nat): Kind {
    if 1 <= num <= 3 then BytesKind else UnknownKind
  }

  function TripleFields(t: TripleData): seq<Value> {
    BytesField(1, t.A) + (BytesField(2, t.B) + BytesField(3, t.C))
  }

  function StoreTriple(t: TripleData, f: Value): Option<TripleData> {
    match f
    case Bytes(num, bs) =>
      if num == 1 then Some(t.(A := bs)) else if num == 2 then Some(t.(B := bs)) else Some(t.(C := bs))
    case _ => Some(t)
  }

  function DecodeTriple(b: seq<Byte>): Option<TripleData> {
    DecodeFrom(TripleKind, StoreTriple, EMPTY_TRIPLE, b)
  }

  function EncodeTriple(t: TripleData): seq<Byte> {
    AppendFields(TripleFields(t))
  }

  lemma TripleSurvives(t: TripleData)
    requires |t.A| < TWO_63 && |t.B| < TWO_63 && |t.C| < TWO_63
    ensures DecodeTriple(EncodeTriple(t)) == Some(t)
  {
    var fs, gs, hs := BytesField(1, t.A), BytesField(2, t.B), BytesField(3, t.C);
    FieldsInvert(TripleKind, StoreTriple, EMPTY_TRIPLE, TripleFields(t));
    StoreAllAppend(StoreTriple, EMPTY_TRIPLE, fs, gs + hs);
    StoreAllAppend(StoreTriple, EMPTY_TRIPLE.(A := t.A), gs, hs);
  }

  lemma TripleVanishes(t: TripleData)
    ensures EncodeTriple(t) == [] <==> t == EMPTY_TRIPLE
  {
    FieldsVanish(TripleFields(t));
  }

  // ---- Protocol messages ----

  function MsgKind(num: nat): Kind {
    if num == 1 || num == 2 then VarintKind else if num == 3 || num == 4 then BytesKind else UnknownKind
  }

  function MsgFields(m: Msg): seq<Value> {
    VarintField(1, ToUint32(m.roundNum))
    + (VarintField(2, ToUint32(m.senderId)) + (BytesField(3, m.sessionId) + BytesField(4, m.data)))
  }

  function StoreMsg(m: Msg, f: Value): Option<Msg> {
    match f
    case Varint(num, v) => if num == 1 then Some(m.(roundNum := ToInt32(v))) else Some(m.(senderId := ToInt32(v)))
    case Bytes(num, bs) => if num == 3 then Some(m.(sessionId := bs)) else Some(m.(data := bs))
    case Skipped => Some(m)
  }

  function DecodeMsg(b: seq<Byte>): Option<Msg> {
    DecodeFrom(MsgKind, StoreMsg, EMPTY_MSG, b)
  }

  function EncodeMsg(m: Msg): seq<Byte> {
    AppendFields(MsgFields(m))
  }

  /** Every protocol message arrives as it was sent. */
  lemma MsgSurvives(m: Msg)
    requires |m.sessionId| < TWO_63 && |m.data| < TWO_63
    ensures DecodeMsg(EncodeMsg(m)) == Some(m)
  {
    var f1, f2 := VarintField(1, ToUint32(m.roundNum)), VarintField(2, ToUint32(m.senderId));
    var f3, f4 := BytesField(3, m.sessionId), BytesField(4, m.data);
    FieldsInvert(MsgKind, StoreMsg, EMPTY_MSG, MsgFields(m));
    Int32Survives(m.roundNum);
    Int32Survives(m.senderId);
    hide ToInt32, ToUint32;
    StoreAllAppend(StoreMsg, EMPTY_MSG, f1, f2 + (f3 + f4));
    var m1 := EMPTY_MSG.(roundNum := m.roundNum);
    StoreAllAppend(StoreMsg, m1, f2, f3 + f4);
    StoreAllAppend(StoreMsg, m1.(senderId := m.senderId), f3, f4);
  }

  // ---- Tasks ----

  function TaskKind(num: nat): Kind {
    if num == 2 || num == 4 || num == 5 || num == 6 then VarintKind
    else if num == 1 || num == 3 || num == 7 || num == 8 || num == 9 then BytesKind
    else UnknownKind
  }

  function NameFields(t: Task): seq<Value> {
    BytesField(1, t.sessionId) + (VarintField(2, ToUint32(t.nodeId)) + BytesField(3, t.op))
  }

  function SizeFields(t: Task): seq<Value> {
    VarintField(4, ToUint32(t.partyCount)) + (VarintField(5, ToUint32(t.bitLen)) + BoolField(6, t.ready))
  }

  /** A sub-message that encodes to nothing is not sent. */
  function ItemsFields<T>(num: nat, encode: T -> seq<Byte>, xs: seq<T>): seq<Value> {
    if xs == [] then [] else BytesField(num, encode(xs[0])) + ItemsFields(num, encode, xs[1..])
  }

  function PeersFields(ps: seq<PeerEntry>): seq<Value> {
    ItemsFields(7, EncodePeer, ps)
  }

  function SharesFields(ss: seq<ShareData>): seq<Value> {
    ItemsFields(8, EncodeShare, ss)
  }

  function TriplesFields(ts: seq<TripleData>): seq<Value> {
    ItemsFields(9, EncodeTriple, ts)
  }

  function TaskFields(t: Task): seq<Value> {
    NameFields(t) + (SizeFields(t) + SubFields(t))
  }

  function SubFields(t: Task): seq<Value> {
    PeersFields(t.peers) + (SharesFields(t.shares) + TriplesFields(t.triples))
  }

  function StoreTask(t: Task, f: Value): Option<Task> {
    match f
    case Varint(num, v) =>
      if num == 2 then Some(t.(nodeId := ToInt32(v)))
      else if num == 4 then Some(t.(partyCount := ToInt32(v)))
      else if num == 5 then Some(t.(bitLen := ToInt32(v)))
      else Some(t.(ready := v != 0))
    case Bytes(num, bs) =>
      if num == 1 then Some(t.(sessionId := bs))
      else if num == 3 then Some(t.(op := bs))
      else if num == 7 then
        (match DecodePeer(bs) case None => None case Some(p) => Some(t.(peers := t.peers + [p])))
      else if num == 8 then
        (match DecodeShare(bs) case None => None case Some(s) => Some(t.(shares := t.shares + [s])))
      else
        (match DecodeTriple(bs) case None => None case Some(x) => Some(t.(triples := t.triples + [x])))
    case Skipped => Some(t)
  }

  function DecodeTask(b: seq<Byte>): Option<Task> {
    DecodeFrom(TaskKind, StoreTask, EMPTY_TASK, b)
  }

  function EncodeTask(t: Task): seq<Byte> {
    AppendFields(TaskFields(t))
  }

  // ---- What survives ----

  /** What is left of a list without its items that are all defaults. */
  function Kept<T(==)>(xs: seq<T>, empty: T): seq<T> {
    if xs == [] then [] else (if xs[0] == empty then [] else [xs[0]]) + Kept(xs[1..], empty)
  }

  function Pruned(t: Task): Task {
    t.(peers := Kept(t.peers, EMPTY_PEER), shares := Kept(t.shares, EMPTY_SHARE),
       triples := Kept(t.triples, EMPTY_TRIPLE))
  }

  /** Byte strings in memory are shorter than 2^63. */
  predicate PeerFits(p: PeerEntry) {
    |p.addr| < TWO_63 && |EncodePeer(p)| < TWO_63
  }

  predicate ShareFits(s: ShareData) {
    SlotFits(s) && |s.value| < TWO_63 && |EncodeShare(s)| < TWO_63
  }

  predicate TripleFits(t: TripleData) {
    |t.A| < TWO_63 && |t.B| < TWO_63 && |t.C| < TWO_63 && |EncodeTriple(t)| < TWO_63
  }

  predicate TaskFits(t: Task) {
    && |t.sessionId| < TWO_63 && |t.op| < TWO_63
    && (forall i :: 0 <= i < |t.peers| ==> PeerFits(t.peers[i]))
    && (forall i :: 0 <= i < |t.shares| ==> ShareFits(t.shares[i]))
    && (forall i :: 0 <= i < |t.triples| ==> TripleFits(t.triples[i]))
  }

  predicate AllEncodable(fs: seq<Value>) {
    forall i :: 0 <= i < |fs| ==> Encodable(TaskKind, fs[i])
  }

  lemma EncodableTogether(fs: seq<Value>, gs: seq<Value>)
    requires AllEncodable(fs) && AllEncodable(gs)
    ensures AllEncodable(fs + gs)
  {
    hide Encodable;
  }

  lemma StoreTwo(t: Task, fs: seq<Value>, t1: Task, gs: seq<Value>, t2: Task)
    requires StoreAll(StoreTask, t, fs) == Some(t1)
    requires StoreAll(StoreTask, t1, gs) == Some(t2)
    ensures StoreAll(StoreTask, t, fs + gs) == Some(t2)
  {
    hide StoreTask, StoreAll;
    StoreAllAppend(StoreTask, t, fs, gs);
  }

  lemma ConcatAssociates<T>(a: seq<T>, b: seq<T>, c: seq<T>)
    ensures (a + b) + c == a + (b + c)
  {
  }

  /** What three stores in a row do. */
  lemma StoreThree(t: Task, fs: seq<Value>, t1: Task, gs: seq<Value>, t2: Task, hs: seq<Value>, t3: Task)
    requires StoreAll(StoreTask, t, fs) == Some(t1)
    requires StoreAll(StoreTask, t1, gs) == Some(t2)
    requires StoreAll(StoreTask, t2, hs) == Some(t3)
    requires AllEncodable(fs) && AllEncodable(gs) && AllEncodable(hs)
    ensures StoreAll(StoreTask, t, fs + (gs + hs)) == Some(t3)
    ensures AllEncodable(fs + (gs + hs))
  {
    hide StoreTask, StoreAll, AllEncodable;
    EncodableTogether(gs, hs);
    EncodableTogether(fs, gs + hs);
    StoreAllAppend(StoreTask, t, fs, gs + hs);
    StoreAllAppend(StoreTask, t1, gs, hs);
  }

  lemma NamesStored(t: Task)
    requires |t.sessionId| < TWO_63 && |t.op| < TWO_63
    ensures AllEncodable(NameFields(t))
    ensures StoreAll(StoreTask, EMPTY_TASK, NameFields(t))
         == Some(EMPTY_TASK.(sessionId := t.sessionId, nodeId := t.nodeId, op := t.op))
  {
    Int32Survives(t.nodeId);
    hide ToInt32, ToUint32, DecodePeer, DecodeShare, DecodeTriple;
    var t1 := EMPTY_TASK.(sessionId := t.sessionId);
    var t2 := t1.(nodeId := t.nodeId);
    StoreThree(EMPTY_TASK, BytesField(1, t.sessionId), t1, VarintField(2, ToUint32(t.nodeId)), t2,
               BytesField(3, t.op), t2.(op := t.op));
  }

  lemma SizesStored(t: Task, from: Task)
    requires from.partyCount == 0 && from.bitLen == 0 && !from.ready
    ensures AllEncodable(SizeFields(t))
    ensures StoreAll(StoreTask, from, SizeFields(t))
         == Some(from.(partyCount := t.partyCount, bitLen := t.bitLen, ready := t.ready))
  {
    Int32Survives(t.partyCount);
    Int32Survives(t.bitLen);
    hide ToInt32, ToUint32, DecodePeer, DecodeShare, DecodeTriple;
    var t1 := from.(partyCount := t.partyCount);
    var t2 := t1.(bitLen := t.bitLen);
    StoreThree(from, VarintField(4, ToUint32(t.partyCount)), t1, VarintField(5, ToUint32(t.bitLen)), t2,
               BoolField(6, t.ready), t2.(ready := t.ready));
  }

  lemma PeerStored(t: Task, p: PeerEntry)
    requires PeerFits(p)
    ensures AllEncodable(BytesField(7, EncodePeer(p)))
    ensures StoreAll(StoreTask, t, BytesField(7, EncodePeer(p)))
         == Some(t.(peers := if p == EMPTY_PEER then t.peers else t.peers + [p]))
  {
    PeerSurvives(p);
    PeerVanishes(p);
    hide DecodePeer, DecodeShare, DecodeTriple, EncodePeer;
  }

  lemma ShareStored(t: Task, s: ShareData)
    requires ShareFits(s)
    ensures AllEncodable(BytesField(8, EncodeShare(s)))
    ensures StoreAll(StoreTask, t, BytesField(8, EncodeShare(s)))
         == Some(t.(shares := if s == EMPTY_SHARE then t.shares else t.shares + [s]))
  {
    ShareSurvives(s);
    ShareVanishes(s);
    hide DecodePeer, DecodeShare, DecodeTriple, EncodeShare;
  }

  lemma TripleStored(t: Task, x: TripleData)
    requires TripleFits(x)
    ensures AllEncodable(BytesField(9, EncodeTriple(x)))
    ensures StoreAll(StoreTask, t, BytesField(9, EncodeTriple(x)))
         == Some(t.(triples := if x == EMPTY_TRIPLE then t.triples else t.triples + [x]))
  {
    TripleSurvives(x);
    TripleVanishes(x);
    hide DecodePeer, DecodeShare, DecodeTriple, EncodeTriple;
  }

  /** What storing one item does to the list ys, where put makes the task that holds a list. */
  predicate StoresAt<T(==)>(num: nat, encode: T -> seq<Byte>, empty: T, put: seq<T> -> Task, x: T, ys: seq<T>) {
    && AllEncodable(BytesField(num, encode(x)))
    && StoreAll(StoreTask, put(ys), BytesField(num, encode(x))) == Some(put(if x == empty then ys else ys + [x]))
  }

  /** A list of items is stored without those that are all defaults. */
  lemma {:induction false} ItemsStored<T(!new)>(
      num: nat, encode: T -> seq<Byte>, empty: T, put: seq<T> -> Task, xs: seq<T>, done: seq<T>)
    requires forall i, ys :: 0 <= i < |xs| ==> StoresAt(num, encode, empty, put, xs[i], ys)
    ensures AllEncodable(ItemsFields(num, encode, xs))
    ensures StoreAll(StoreTask, put(done), ItemsFields(num, encode, xs)) == Some(put(done + Kept(xs, empty)))
    decreases |xs|
  {
    hide StoreTask, AllEncodable, BytesField;
    if xs == [] {
      hide StoresAt;
      assert done + [] == done;
      assert AllEncodable([]) by { NothingEncodable(); }
    } else {
      var head: seq<T> := if xs[0] == empty then [] else [xs[0]];
      assert StoresAt(num, encode, empty, put, xs[0], done);
      assert done + head == if xs[0] == empty then done else done + [xs[0]];
      var first, rest := BytesField(num, encode(xs[0])), ItemsFields(num, encode, xs[1..]);
      assert StoreAll(StoreTask, put(done), first) == Some(put(done + head));
      hide StoresAt, StoreAll;
      ItemsStored(num, encode, empty, put, xs[1..], done + head);
      ConcatAssociates(done, head, Kept(xs[1..], empty));
      EncodableTogether(first, rest);
      StoreTwo(put(done), first, put(done + head), rest, put(done + Kept(xs, empty)));
    }
  }

  lemma NothingEncodable()
    ensures AllEncodable([])
  {
  }

  lemma PeersStored(t: Task, ps: seq<PeerEntry>)
    requires t.peers == [] && forall i :: 0 <= i < |ps| ==> PeerFits(ps[i])
    ensures AllEncodable(PeersFields(ps))
    ensures StoreAll(StoreTask, t, PeersFields(ps)) == Some(t.(peers := Kept(ps, EMPTY_PEER)))
  {
    var put := (ys: seq<PeerEntry>) => t.(peers := ys);
    forall i, ys | 0 <= i < |ps|
      ensures StoresAt(7, EncodePeer, EMPTY_PEER, put, ps[i], ys)
    {
      hide StoreTask, StoreAll, BytesField;
      PeerStored(put(ys), ps[i]);
    }
    hide StoreTask, StoreAll, ItemsFields, AllEncodable, StoresAt, PeerFits;
    ItemsStored(7, EncodePeer, EMPTY_PEER, put, ps, []);
    assert put([]) == t && [] + Kept(ps, EMPTY_PEER) == Kept(ps, EMPTY_PEER);
  }

  lemma SharesStored(t: Task, ss: seq<ShareData>)
    requires t.shares == [] && forall i :: 0 <= i < |ss| ==> ShareFits(ss[i])
    ensures AllEncodable(SharesFields(ss))
    ensures StoreAll(StoreTask, t, SharesFields(ss)) == Some(t.(shares := Kept(ss, EMPTY_SHARE)))
  {
    var put := (ys: seq<ShareData>) => t.(shares := ys);
    forall i, ys | 0 <= i < |ss|
      ensures StoresAt(8, EncodeShare, EMPTY_SHARE, put, ss[i], ys)
    {
      hide StoreTask, StoreAll, BytesField;
      ShareStored(put(ys), ss[i]);
    }
    hide StoreTask, StoreAll, ItemsFields, AllEncodable, StoresAt, ShareFits;
    ItemsStored(8, EncodeShare, EMPTY_SHARE, put, ss, []);
    assert put([]) == t && [] + Kept(ss, EMPTY_SHARE) == Kept(ss, EMPTY_SHARE);
  }

  lemma TriplesStored(t: Task, xs: seq<TripleData>)
    requires t.triples == [] && forall i :: 0 <= i < |xs| ==> TripleFits(xs[i])
    ensures AllEncodable(TriplesFields(xs))
    ensures StoreAll(StoreTask, t, TriplesFields(xs)) == Some(t.(triples := Kept(xs, EMPTY_TRIPLE)))
  {
    var put := (ys: seq<TripleData>) => t.(triples := ys);
    forall i, ys | 0 <= i < |xs|
      ensures StoresAt(9, EncodeTriple, EMPTY_TRIPLE, put, xs[i], ys)
    {
      hide StoreTask, StoreAll, BytesField;
      TripleStored(put(ys), xs[i]);
    }
    hide StoreTask, StoreAll, ItemsFields, AllEncodable, StoresAt, TripleFits;
    ItemsStored(9, EncodeTriple, EMPTY_TRIPLE, put, xs, []);
    assert put([]) == t && [] + Kept(xs, EMPTY_TRIPLE) == Kept(xs, EMPTY_TRIPLE);
  }

  lemma SubsStored(t: Task, from: Task)
    requires TaskFits(t) && from.peers == [] && from.shares == [] && from.triples == []
    ensures AllEncodable(SubFields(t))
    ensures StoreAll(StoreTask, from, SubFields(t))
         == Some(from.(peers := Pruned(t).peers, shares := Pruned(t).shares, triples := Pruned(t).triples))
  {
    hide StoreTask, PeersFields, SharesFields, TriplesFields, Encodable, StoreAll, AllEncodable, Kept;
    PeersStored(from, t.peers);
    var t1 := from.(peers := Kept(t.peers, EMPTY_PEER));
    SharesStored(t1, t.shares);
    var t2 := t1.(shares := Kept(t.shares, EMPTY_SHARE));
    TriplesStored(t2, t.triples);
    StoreThree(from, PeersFields(t.peers), t1, SharesFields(t.shares), t2, TriplesFields(t.triples),
               t2.(triples := Kept(t.triples, EMPTY_TRIPLE)));
  }

  /** A task arrives as it was sent, without its sub-messages that are all defaults. */
  lemma TaskSurvivesPruned(t: Task)
    requires TaskFits(t)
    ensures DecodeTask(EncodeTask(t)) == Some(Pruned(t))
  {
    hide StoreTask, NameFields, SizeFields, SubFields, StoreAll, AllEncodable, Encodable, PeerFits, ShareFits,
         TripleFits, Kept;
    NamesStored(t);
    var t1 := EMPTY_TASK.(sessionId := t.sessionId, nodeId := t.nodeId, op := t.op);
    SizesStored(t, t1);
    var t2 := t1.(partyCount := t.partyCount, bitLen := t.bitLen, ready := t.ready);
    SubsStored(t, t2);
    StoreThree(EMPTY_TASK, NameFields(t), t1, SizeFields(t), t2, SubFields(t), Pruned(t));
    FieldsDecode(TaskFields(t));
  }

  lemma FieldsDecode(fs: seq<Value>)
    requires AllEncodable(fs)
    ensures DecodeTask(AppendFields(fs)) == StoreAll(StoreTask, EMPTY_TASK, fs)
  {
    hide StoreTask, StoreAll, Encodable;
    FieldsInvert(TaskKind, StoreTask, EMPTY_TASK, fs);
  }

  lemma {:induction false} Keeping<T>(xs: seq<T>, empty: T)
    ensures |Kept(xs, empty)| <= |xs|
    ensures Kept(xs, empty) == xs <==> empty !in xs
    ensures |Kept(xs, empty)| == |xs| <==> empty !in xs
  {
    if xs != [] {
      Keeping(xs[1..], empty);
      assert xs == [xs[0]] + xs[1..];
    }
  }

  /** So it arrives unchanged exactly when no peer, share or triple in it is all defaults. */
  lemma TaskSurvives(t: Task)
    requires TaskFits(t)
    ensures DecodeTask(EncodeTask(t)) == Some(t)
            <==> EMPTY_PEER !in t.peers && EMPTY_SHARE !in t.shares && EMPTY_TRIPLE !in t.triples
  {
    TaskSurvivesPruned(t);
    Keeping(t.peers, EMPTY_PEER);
    Keeping(t.shares, EMPTY_SHARE);
    Keeping(t.triples, EMPTY_TRIPLE);
  }

  // ---- The bytes of every message ----

  /** A number behind its tag byte; zero is not sent. */
  function Count(tag: Byte, x: Int32): seq<Byte> {
    if x == 0 then [] else [tag] + AppendVarint(if x < 0 then x + 0x1_0000_0000 else x)
  }

  /** Bytes behind their tag byte and their length; the empty string is not sent. */
  function Chunk(tag: Byte, bs: seq<Byte>): seq<Byte> {
    if bs == [] then [] else [tag] + (AppendVarint(|bs|) + bs)
  }

  lemma CountBytes(num: nat, x: Int32)
    requires 1 <= num < 16
    ensures AppendFields(VarintField(num, ToUint32(x))) == Count(8 * num, x)
  {
    TwosComplement(x, 0);
    var fs := VarintField(num, ToUint32(x));
    if x != 0 {
      assert fs[1..] == [] && AppendTag(num, 0) == [8 * num];
      hide AppendVarint;
    }
  }

  lemma ChunkBytes(num: nat, bs: seq<Byte>)
    requires 1 <= num < 16
    ensures AppendFields(BytesField(num, bs)) == Chunk(8 * num + 2, bs)
  {
    var fs := BytesField(num, bs);
    if bs != [] {
      assert fs[1..] == [] && AppendTag(num, 2) == [8 * num + 2];
      hide AppendVarint;
    }
  }

  lemma PeerLayout(p: PeerEntry)
    ensures EncodePeer(p) == Count(0x08, p.nodeId) + Chunk(0x12, p.addr)
  {
    CountBytes(1, p.nodeId);
    ChunkBytes(2, p.addr);
    AppendFieldsAppend(VarintField(1, ToUint32(p.nodeId)), BytesField(2, p.addr));
  }

  lemma ShareLayout(s: ShareData)
    requires SlotFits(s)
    ensures EncodeShare(s) == Count(0x08, s.slot) + Chunk(0x12, s.value)
  {
    CountBytes(1, s.slot);
    ChunkBytes(2, s.value);
    AppendFieldsAppend(VarintField(1, ToUint32(s.slot)), BytesField(2, s.value));
  }

  lemma TripleLayout(t: TripleData)
    ensures EncodeTriple(t) == Chunk(0x0a, t.A) + (Chunk(0x12, t.B) + Chunk(0x1a, t.C))
  {
    hide AppendFields, BytesField, Chunk;
    ChunkBytes(1, t.A);
    ChunkBytes(2, t.B);
    ChunkBytes(3, t.C);
    AppendFieldsAppend(BytesField(2, t.B), BytesField(3, t.C));
    AppendFieldsAppend(BytesField(1, t.A), BytesField(2, t.B) + BytesField(3, t.C));
  }

  lemma MsgLayout(m: Msg)
    ensures EncodeMsg(m)
         == Count(0x08, m.roundNum) + (Count(0x10, m.senderId) + (Chunk(0x1a, m.sessionId) + Chunk(0x22, m.data)))
  {
    hide AppendFields, BytesField, VarintField, ToUint32, Chunk, Count;
    CountBytes(1, m.roundNum);
    CountBytes(2, m.senderId);
    ChunkBytes(3, m.sessionId);
    ChunkBytes(4, m.data);
    var c, d := BytesField(3, m.sessionId), BytesField(4, m.data);
    AppendFieldsAppend(c, d);
    AppendFieldsAppend(VarintField(2, ToUint32(m.senderId)), c + d);
    AppendFieldsAppend(VarintField(1, ToUint32(m.roundNum)), VarintField(2, ToUint32(m.senderId)) + (c + d));
  }

  /** The encodings of a list of sub-messages, each behind the tag byte; empty ones are not sent. */
  function Chunks<T>(tag: Byte, encode: T -> seq<Byte>, xs: seq<T>): seq<Byte> {
    if xs == [] then [] else Chunk(tag, encode(xs[0])) + Chunks(tag, encode, xs[1..])
  }

  lemma {:induction false} ChunksBytes<T>(num: nat, encode: T -> seq<Byte>, xs: seq<T>)
    requires 1 <= num < 16
    ensures AppendFields(ItemsFields(num, encode, xs)) == Chunks(8 * num + 2, encode, xs)
  {
    if xs != [] {
      ChunkBytes(num, encode(xs[0]));
      ChunksBytes(num, encode, xs[1..]);
      AppendFieldsAppend(BytesField(num, encode(xs[0])), ItemsFields(num, encode, xs[1..]));
      hide BytesField, Chunk, AppendFields;
    }
  }

  lemma AppendThree(fs: seq<Value>, gs: seq<Value>, hs: seq<Value>)
    ensures AppendFields(fs + (gs + hs)) == AppendFields(fs) + (AppendFields(gs) + AppendFields(hs))
  {
    AppendFieldsAppend(gs, hs);
    AppendFieldsAppend(fs, gs + hs);
  }

  lemma TaskLayout(t: Task)
    ensures EncodeTask(t)
         == (Chunk(0x0a, t.sessionId) + (Count(0x10, t.nodeId) + Chunk(0x1a, t.op)))
            + ((Count(0x20, t.partyCount) + (Count(0x28, t.bitLen) + (if t.ready then [0x30, 0x01] else [])))
            + (Chunks(0x3a, EncodePeer, t.peers)
            + (Chunks(0x42, EncodeShare, t.shares) + Chunks(0x4a, EncodeTriple, t.triples))))
  {
    ReadyBytes(t.ready);
    hide AppendFields, BytesField, VarintField, BoolField, ItemsFields, ToUint32, Chunk, Count, Chunks;
    ChunkBytes(1, t.sessionId);
    CountBytes(2, t.nodeId);
    ChunkBytes(3, t.op);
    CountBytes(4, t.partyCount);
    CountBytes(5, t.bitLen);
    ChunksBytes(7, EncodePeer, t.peers);
    ChunksBytes(8, EncodeShare, t.shares);
    ChunksBytes(9, EncodeTriple, t.triples);
    AppendThree(BytesField(1, t.sessionId), VarintField(2, ToUint32(t.nodeId)), BytesField(3, t.op));
    AppendThree(VarintField(4, ToUint32(t.partyCount)), VarintField(5, ToUint32(t.bitLen)), BoolField(6, t.ready));
    AppendThree(PeersFields(t.peers), SharesFields(t.shares), TriplesFields(t.triples));
    AppendThree(NameFields(t), SizeFields(t), SubFields(t));
  }

  lemma ReadyBytes(ready: bool)
    ensures AppendFields(BoolField(6, ready)) == if ready then [0x30, 0x01] else []
  {
    assert AppendField(Varint(6, 1)) == [0x30, 0x01];
    assert ready ==> BoolField(6, ready)[1..] == [];
  }

  /** The field numbers each decoder knows, and what kind of value it expects there; all others are skipped. */
  lemma KnownNumbers(n: nat)
    ensures PeerKind(n) == ShareKind(n) == (if n == 1 then VarintKind else if n == 2 then BytesKind else UnknownKind)
    ensures TripleKind(n) == if n in {1, 2, 3} then BytesKind else UnknownKind
    ensures MsgKind(n) == if n in {1, 2} then VarintKind else if n in {3, 4} then BytesKind else UnknownKind
    ensures TaskKind(n)
         == if n in {2, 4, 5, 6} then VarintKind else if n in {1, 3, 7, 8, 9} then BytesKind else UnknownKind
  {
  }
}
