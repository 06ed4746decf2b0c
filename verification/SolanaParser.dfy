/**
 * Parsing raw Solana transactions: a reader whose error is sticky, compact-u16 lengths, legacy and
 * versioned messages. The parser inverts the serialization of every well-formed transaction.
 */
module SolanaParser {
  import opened Options
  import F = Field
  import B = Base58

  type Byte = F.Byte

  // ---- The format ----

  datatype Call = Call(program: Byte, accounts: seq<Byte>, data: seq<Byte>)

  datatype LookupTable = LookupTable(key: seq<Byte>, writable: seq<Byte>, readonly: seq<Byte>)

  /** A version of None is a legacy message; lookup tables exist in versioned ones only. */
  datatype Transaction = Transaction(
    signatures: seq<seq<Byte>>, version: Option<Byte>, signers: Byte, readonlySigned: Byte, readonlyUnsigned: Byte,
    keys: seq<seq<Byte>>, blockhash: seq<Byte>, calls: seq<Call>, tables: seq<LookupTable>)

  /** Seven bits to a byte, the lowest first, in at most three bytes. */
  function CompactU16(n: nat): (b: seq<Byte>)
    requires n < 0x10000
    ensures 1 <= |b| <= 3
  {
    if n < 128 then [n]
    else if n < 16384 then [n % 128 + 128, n / 128]
    else [n % 128 + 128, n / 128 % 128 + 128, n / 16384]
  }

  function Concat(xs: seq<seq<Byte>>): seq<Byte> {
    if xs == [] then [] else xs[0] + Concat(xs[1..])
  }

  predicate ShortCall(c: Call) {
    |c.accounts| < 0x10000 && |c.data| < 0x10000
  }

  predicate ShortTable(t: LookupTable) {
    |t.writable| < 0x10000 && |t.readonly| < 0x10000
  }

  function SerializeCall(c: Call): seq<Byte>
    requires ShortCall(c)
  {
    [c.program] + (CompactU16(|c.accounts|) + (c.accounts + (CompactU16(|c.data|) + c.data)))
  }

  function SerializeCalls(cs: seq<Call>): seq<Byte>
    requires forall i :: 0 <= i < |cs| ==> ShortCall(cs[i])
  {
    if cs == [] then [] else SerializeCall(cs[0]) + SerializeCalls(cs[1..])
  }

  function SerializeTable(t: LookupTable): seq<Byte>
    requires ShortTable(t)
  {
    t.key + (CompactU16(|t.writable|) + (t.writable + (CompactU16(|t.readonly|) + t.readonly)))
  }

  function SerializeTables(ts: seq<LookupTable>): seq<Byte>
    requires forall i :: 0 <= i < |ts| ==> ShortTable(ts[i])
  {
    if ts == [] then [] else SerializeTable(ts[0]) + SerializeTables(ts[1..])
  }

  predicate InRange(c: Call, keys: nat) {
    c.program < keys && forall j :: 0 <= j < |c.accounts| ==> c.accounts[j] < keys
  }

  predicate AllInRange(cs: seq<Call>, keys: nat) {
    forall i :: 0 <= i < |cs| ==> InRange(cs[i], keys)
  }

  predicate AllSized(xs: seq<seq<Byte>>, size: nat) {
    forall i :: 0 <= i < |xs| ==> |xs[i]| == size
  }

  predicate WellFormed(t: Transaction) {
    && 1 <= |t.signatures| <= 64 && AllSized(t.signatures, 64)
    && t.signers < 128 && (t.version.Some? ==> t.version.value < 128)
    && 1 <= |t.keys| <= 256 && AllSized(t.keys, 32)
    && |t.blockhash| == 32
    && |t.calls| < 0x10000
    && (forall i :: 0 <= i < |t.calls| ==> ShortCall(t.calls[i]))
    && |t.tables| < 0x10000 && (forall i :: 0 <= i < |t.tables| ==> ShortTable(t.tables[i]) && |t.tables[i].key| == 32)
    && (t.version.None? ==> t.tables == [])
  }

  /** How many accounts a transaction looks up in its tables. */
  function LookedUp(ts: seq<LookupTable>): nat {
    if ts == [] then 0 else |ts[0].writable| + |ts[0].readonly| + LookedUp(ts[1..])
  }

  /** Programs are among the keys; the accounts of an instruction may be looked up as well. */
  predicate Legal(t: Transaction) {
    && WellFormed(t)
    && forall i :: 0 <= i < |t.calls| ==>
         && t.calls[i].program < |t.keys|
         && forall j :: 0 <= j < |t.calls[i].accounts| ==> t.calls[i].accounts[j] < |t.keys| + LookedUp(t.tables)
  }

  predicate UsesLookup(t: Transaction) {
    exists i, j :: 0 <= i < |t.calls| && 0 <= j < |t.calls[i].accounts| && t.calls[i].accounts[j] >= |t.keys|
  }

  function Prefix(t: Transaction): seq<Byte> {
    (if t.version.Some? && t.version.value < 128 then [128 + t.version.value] else [])
    + [t.signers, t.readonlySigned, t.readonlyUnsigned]
  }

  function SerializeEnd(t: Transaction): seq<Byte>
    requires WellFormed(t)
  {
    if t.version.Some? then CompactU16(|t.tables|) + SerializeTables(t.tables) else []
  }

  function Serialize(t: Transaction): seq<Byte>
    requires WellFormed(t)
  {
    CompactU16(|t.signatures|) + (Concat(t.signatures) + (Prefix(t)
    + (CompactU16(|t.keys|) + (Concat(t.keys) + (t.blockhash
    + (CompactU16(|t.calls|) + (SerializeCalls(t.calls) + SerializeEnd(t))))))))
  }

  // ---- What the parser returns ----

  datatype Instruction = Instruction(programId: string, accounts: seq<string>, rawData: seq<Byte>)

  datatype Parsed = Parsed(signature: string, keys: seq<string>, instructions: seq<Instruction>, versioned: bool)

  function Names(keys: seq<seq<Byte>>): (r: seq<string>)
    ensures |r| == |keys|
  {
    seq(|keys|, i requires 0 <= i < |keys| => B.EncodeSpec(keys[i]))
  }

  function Named(c: Call, names: seq<string>): Instruction
    requires InRange(c, |names|)
  {
    Instruction(names[c.program],
                seq(|c.accounts|, j requires 0 <= j < |c.accounts| => names[c.accounts[j]]), c.data)
  }

  function AllNamed(cs: seq<Call>, names: seq<string>): seq<Instruction>
    requires AllInRange(cs, |names|)
  {
    seq(|cs|, i requires 0 <= i < |cs| => Named(cs[i], names))
  }

  /** Instructions are resolved against the transaction's own keys; an index past them is an error. */
  function Expected(t: Transaction): Option<Parsed>
    requires WellFormed(t)
  {
    if AllInRange(t.calls, |t.keys|) then
      Some(Parsed(B.EncodeSpec(t.signatures[0]), Names(t.keys), AllNamed(t.calls, Names(t.keys)), t.version.Some?))
    else None
  }

  // ---- Reading: what is left, or nothing after a read past the end ----

  type Cursor = Option<seq<Byte>>

  function ByteOf(c: Cursor): Byte {
    if c.Some? && c.value != [] then c.value[0] else 0
  }

  function AfterByte(c: Cursor): Cursor {
    if c.Some? && c.value != [] then Some(c.value[1..]) else None
  }

  function BytesOf(c: Cursor, n: nat): seq<Byte> {
    if c.Some? && n <= |c.value| then c.value[..n] else []
  }

  function AfterBytes(c: Cursor, n: nat): Cursor {
    if c.Some? && n <= |c.value| then Some(c.value[n..]) else None
  }

  /** At most three bytes; the third one ends the number whatever its top bit says. */
  function CompactOf(c: Cursor, i: nat): nat
    requires i <= 3
    decreases 3 - i
  {
    if i == 3 || AfterByte(c).None? then 0
    else
      var b := ByteOf(c);
      if b < 128 then b
      else if AfterCompact(AfterByte(c), i + 1).None? then 0
      else b - 128 + 128 * CompactOf(AfterByte(c), i + 1)
  }

  function AfterCompact(c: Cursor, i: nat): Cursor
    requires i <= 3
    decreases 3 - i
  {
    if i == 3 then c
    else if AfterByte(c).Some? && ByteOf(c) >= 128 then AfterCompact(AfterByte(c), i + 1)
    else AfterByte(c)
  }

  function TakeMany(c: Cursor, n: nat, size: nat): (r: seq<seq<Byte>>)
    ensures |r| == n
    decreases n
  {
    if n == 0 then [] else [BytesOf(c, size)] + TakeMany(AfterBytes(c, size), n - 1, size)
  }

  function AfterMany(c: Cursor, n: nat, size: nat): Cursor
    decreases n
  {
    if n == 0 then c else AfterMany(AfterBytes(c, size), n - 1, size)
  }

  function CallOf(c: Cursor): Call {
    var afterAccounts := AfterBytes(AfterCompact(AfterByte(c), 0), CompactOf(AfterByte(c), 0));
    Call(ByteOf(c), BytesOf(AfterCompact(AfterByte(c), 0), CompactOf(AfterByte(c), 0)),
         BytesOf(AfterCompact(afterAccounts, 0), CompactOf(afterAccounts, 0)))
  }

  function AfterCall(c: Cursor): Cursor {
    var afterAccounts := AfterBytes(AfterCompact(AfterByte(c), 0), CompactOf(AfterByte(c), 0));
    AfterBytes(AfterCompact(afterAccounts, 0), CompactOf(afterAccounts, 0))
  }

  /** The instructions and what follows them; a short read or an index out of range is an error. */
  function CallsOf(c: Cursor, n: nat, names: seq<string>): Option<(seq<Instruction>, Cursor)>
    decreases n
  {
    if n == 0 then Some(([], c))
    else if AfterCall(c).None? || !InRange(CallOf(c), |names|) then None
    else
      match CallsOf(AfterCall(c), n - 1, names)
      case None => None
      case Some(r) => Some(([Named(CallOf(c), names)] + r.0, r.1))
  }

  function AfterTable(c: Cursor): Cursor {
    var c1 := AfterBytes(c, 32);
    var c2 := AfterBytes(AfterCompact(c1, 0), CompactOf(c1, 0));
    AfterBytes(AfterCompact(c2, 0), CompactOf(c2, 0))
  }

  predicate TablesRead(c: Cursor, n: nat)
    decreases n
  {
    n == 0 || (AfterTable(c).Some? && TablesRead(AfterTable(c), n - 1))
  }

  /** A lookup-table count that is not there reads as zero, and the transaction is accepted. */
  predicate ParseEnd(versioned: bool, c: Cursor) {
    !versioned || TablesRead(AfterCompact(c, 0), CompactOf(c, 0))
  }

  function ParseBody(signature: string, versioned: bool, c: Cursor): Option<Parsed> {
    var keyCount, c1 := CompactOf(c, 0), AfterCompact(c, 0);
    if c1.None? || keyCount == 0 || keyCount > 256 then None
    else
      var names := Names(TakeMany(c1, keyCount, 32));
      var c2 := AfterBytes(AfterMany(c1, keyCount, 32), 32);
      var c3 := AfterCompact(c2, 0);
      if c3.None? then None
      else
        match CallsOf(c3, CompactOf(c2, 0), names)
        case None => None
        case Some(r) => if ParseEnd(versioned, r.1) then Some(Parsed(signature, names, r.0, versioned)) else None
  }

  function Parse(raw: seq<Byte>): Option<Parsed> {
    var sigCount, c1 := CompactOf(Some(raw), 0), AfterCompact(Some(raw), 0);
    if c1.None? || sigCount == 0 || sigCount > 64 then None
    else
      var sigs, c2 := TakeMany(c1, sigCount, 64), AfterMany(c1, sigCount, 64);
      if c2.None? then None
      else
        var versioned := ByteOf(c2) >= 128;
        var c3 := if versioned then AfterByte(c2) else c2;
        ParseBody(B.EncodeSpec(sigs[0]), versioned, AfterByte(AfterByte(AfterByte(c3))))
  }

  // ---- Each read inverts its part of the format ----

  /** Every length below 65536 survives, whatever follows it. */
  lemma CompactInverts(n: nat, rest: seq<Byte>)
    requires n < 0x10000
    ensures CompactOf(Some(CompactU16(n) + rest), 0) == n
    ensures AfterCompact(Some(CompactU16(n) + rest), 0) == Some(rest)
  {
    var b := CompactU16(n) + rest;
    var c := Some(b);
    if n < 128 {
      assert AfterByte(c) == Some(rest);
    } else if n < 16384 {
      assert b[1..] == [n / 128] + rest && b[1..][1..] == rest;
      assert AfterByte(AfterByte(c)) == Some(rest);
      assert CompactOf(AfterByte(c), 1) == n / 128;
    } else {
      assert b[1..] == [n / 128 % 128 + 128, n / 16384] + rest;
      assert b[1..][1..] == [n / 16384] + rest && b[1..][1..][1..] == rest;
      assert AfterByte(AfterByte(AfterByte(c))) == Some(rest);
      assert CompactOf(AfterByte(AfterByte(c)), 2) == n / 16384;
      assert CompactOf(AfterByte(c), 1) == n / 128 % 128 + 128 * (n / 16384);
      assert n / 16384 == n / 128 / 128;
    }
  }

  /** The bytes of a length: seven bits in each, the lowest first, and the top bit on all but the last. */
  lemma CompactLayout(n: nat)
    requires n < 0x10000
    ensures var b := CompactU16(n);
            && (|b| == 1 <==> n < 0x80) && (|b| == 3 <==> n >= 0x4000)
            && (forall i :: 0 <= i < |b| ==> (b[i] >= 128 <==> i < |b| - 1))
            && n == b[0] as int % 128 + (if |b| > 1 then 128 * (b[1] as int % 128) else 0)
                    + (if |b| > 2 then 16384 * b[2] as int else 0)
  {
    var q, r := n / 128, n % 128;
    assert n == 128 * q + r;
    assert n >= 16384 ==> n / 16384 == q / 128;
  }

  lemma OneLayout(x: seq<Byte>, c: Call, t: LookupTable)
    requires |c.accounts| == |c.data| == |t.writable| == |t.readonly| == 1
    ensures CompactU16(1) == [1] && Concat([x]) == x
    ensures SerializeCalls([c]) == [c.program, 1, c.accounts[0], 1, c.data[0]]
    ensures SerializeTables([t]) == t.key + [1, t.writable[0], 1, t.readonly[0]]
  {
    assert [x][1..] == [] && [c][1..] == [] && [t][1..] == [];
    assert SerializeCall(c) == [c.program, 1, c.accounts[0], 1, c.data[0]];
  }

  /** The part of a message that both forms share, byte by byte, with one of everything. */
  function OneOfEach(t: Transaction): seq<Byte>
    requires |t.keys| == |t.calls| == 1 && |t.calls[0].accounts| == |t.calls[0].data| == 1
  {
    [t.signers, t.readonlySigned, t.readonlyUnsigned] + ([1] + (t.keys[0] + (t.blockhash
    + ([1] + [t.calls[0].program, 1, t.calls[0].accounts[0], 1, t.calls[0].data[0]]))))
  }

  lemma LegacyLayout(t: Transaction)
    requires WellFormed(t) && |t.signatures| == |t.keys| == |t.calls| == 1
    requires |t.calls[0].accounts| == |t.calls[0].data| == 1 && t.version.None?
    ensures Serialize(t) == [1] + (t.signatures[0] + OneOfEach(t))
  {
    OneLayout(t.signatures[0], t.calls[0], LookupTable([], [0], [0]));
    OneLayout(t.keys[0], t.calls[0], LookupTable([], [0], [0]));
    assert t.signatures == [t.signatures[0]] && t.keys == [t.keys[0]] && t.calls == [t.calls[0]];
    hide CompactU16, Concat, SerializeCalls, SerializeTables, WellFormed;
    var calls := SerializeCalls(t.calls);
    assert SerializeEnd(t) == [] && calls + [] == calls;
    assert Prefix(t) == [t.signers, t.readonlySigned, t.readonlyUnsigned];
  }

  /** The versioned form has its version first and its lookup tables last. */
  lemma VersionedLayout(t: Transaction)
    requires WellFormed(t) && |t.signatures| == |t.keys| == |t.calls| == |t.tables| == 1
    requires |t.calls[0].accounts| == |t.calls[0].data| == 1 && t.version.Some?
    requires |t.tables[0].writable| == |t.tables[0].readonly| == 1
    ensures
      var x := t.tables[0];
      Serialize(t)
      == [1] + (t.signatures[0] + ([128 + t.version.value] + (OneOfEach(t)
         + ([1] + (x.key + [1, x.writable[0], 1, x.readonly[0]])))))
  {
    var x := t.tables[0];
    OneLayout(t.signatures[0], t.calls[0], x);
    OneLayout(t.keys[0], t.calls[0], x);
    assert t.signatures == [t.signatures[0]] && t.keys == [t.keys[0]] && t.calls == [t.calls[0]] && t.tables == [x];
    SerializeShape(t);
    var calls, end := SerializeCalls(t.calls), SerializeEnd(t);
    var head := [t.signers, t.readonlySigned, t.readonlyUnsigned];
    assert end == [1] + (x.key + [1, x.writable[0], 1, x.readonly[0]]);
    hide CompactU16, Concat, SerializeCalls, SerializeTables, WellFormed, Serialize, SerializeEnd;
    assert Prefix(t) == [128 + t.version.value] + head;
    var body := [1] + (t.keys[0] + (t.blockhash + ([1] + (calls + end))));
    assert SerializeBody(t) == body;
    Associates([128 + t.version.value], head, body);
    Associates(head, [1] + (t.keys[0] + (t.blockhash + ([1] + calls))), end);
    Associates([1], t.keys[0] + (t.blockhash + ([1] + calls)), end);
    Associates(t.keys[0], t.blockhash + ([1] + calls), end);
    Associates(t.blockhash, [1] + calls, end);
    Associates([1], calls, end);
  }

  lemma BytesInvert(bs: seq<Byte>, rest: seq<Byte>)
    ensures BytesOf(Some(bs + rest), |bs|) == bs && AfterBytes(Some(bs + rest), |bs|) == Some(rest)
  {
  }

  lemma ByteInverts(b: Byte, rest: seq<Byte>)
    ensures ByteOf(Some([b] + rest)) == b && AfterByte(Some([b] + rest)) == Some(rest)
  {
  }

  lemma Associates(a: seq<Byte>, b: seq<Byte>, c: seq<Byte>)
    ensures (a + b) + c == a + (b + c)
  {
  }

  lemma {:induction false} ManyInvert(xs: seq<seq<Byte>>, size: nat, rest: seq<Byte>)
    requires AllSized(xs, size)
    ensures TakeMany(Some(Concat(xs) + rest), |xs|, size) == xs
    ensures AfterMany(Some(Concat(xs) + rest), |xs|, size) == Some(rest)
  {
    if xs == [] {
      assert Concat(xs) + rest == rest;
    } else {
      Associates(xs[0], Concat(xs[1..]), rest);
      BytesInvert(xs[0], Concat(xs[1..]) + rest);
      ManyInvert(xs[1..], size, rest);
    }
  }

  /** A compact length and that many bytes. */
  lemma VectorInverts(bs: seq<Byte>, rest: seq<Byte>)
    requires |bs| < 0x10000
    ensures var c := Some(CompactU16(|bs|) + (bs + rest));
            && BytesOf(AfterCompact(c, 0), CompactOf(c, 0)) == bs
            && AfterBytes(AfterCompact(c, 0), CompactOf(c, 0)) == Some(rest)
  {
    hide CompactU16, CompactOf, AfterCompact;
    CompactInverts(|bs|, bs + rest);
    BytesInvert(bs, rest);
  }

  lemma CallShape(c: Call, rest: seq<Byte>)
    requires ShortCall(c)
    ensures SerializeCall(c) + rest
         == [c.program] + (CompactU16(|c.accounts|) + (c.accounts + (CompactU16(|c.data|) + (c.data + rest))))
  {
    hide CompactU16;
    var n, m := CompactU16(|c.accounts|), CompactU16(|c.data|);
    Associates([c.program], n + (c.accounts + (m + c.data)), rest);
    Associates(n, c.accounts + (m + c.data), rest);
    Associates(c.accounts, m + c.data, rest);
    Associates(m, c.data, rest);
  }

  lemma CallInverts(c: Call, rest: seq<Byte>)
    requires ShortCall(c)
    ensures CallOf(Some(SerializeCall(c) + rest)) == c && AfterCall(Some(SerializeCall(c) + rest)) == Some(rest)
  {
    CallShape(c, rest);
    hide CompactU16, CompactOf, AfterCompact, BytesOf, AfterBytes, ByteOf, AfterByte, SerializeCall;
    var tail := CompactU16(|c.data|) + (c.data + rest);
    ByteInverts(c.program, CompactU16(|c.accounts|) + (c.accounts + tail));
    VectorInverts(c.accounts, tail);
    VectorInverts(c.data, rest);
  }

  /** Instructions are read back exactly when all their indices are within the names. */
  lemma {:induction false} CallsInvert(cs: seq<Call>, names: seq<string>, rest: seq<Byte>)
    requires forall i :: 0 <= i < |cs| ==> ShortCall(cs[i])
    ensures CallsOf(Some(SerializeCalls(cs) + rest), |cs|, names)
         == if AllInRange(cs, |names|) then Some((AllNamed(cs, names), Some(rest))) else None
  {
    hide SerializeCall, CallOf, AfterCall;
    if cs == [] {
      assert SerializeCalls(cs) + rest == rest;
    } else {
      Associates(SerializeCall(cs[0]), SerializeCalls(cs[1..]), rest);
      CallInverts(cs[0], SerializeCalls(cs[1..]) + rest);
      CallsInvert(cs[1..], names, rest);
      assert cs == [cs[0]] + cs[1..];
      assert AllInRange(cs, |names|) <==> InRange(cs[0], |names|) && AllInRange(cs[1..], |names|);
      if AllInRange(cs, |names|) {
        assert AllNamed(cs, names) == [Named(cs[0], names)] + AllNamed(cs[1..], names);
      }
    }
  }

  lemma TableInverts(t: LookupTable, rest: seq<Byte>)
    requires ShortTable(t) && |t.key| == 32
    ensures AfterTable(Some(SerializeTable(t) + rest)) == Some(rest)
  {
    hide CompactU16, CompactOf, AfterCompact, BytesOf, AfterBytes;
    var n, m := CompactU16(|t.writable|), CompactU16(|t.readonly|);
    Associates(t.key, n + (t.writable + (m + t.readonly)), rest);
    Associates(n, t.writable + (m + t.readonly), rest);
    Associates(t.writable, m + t.readonly, rest);
    Associates(m, t.readonly, rest);
    var tail := m + (t.readonly + rest);
    BytesInvert(t.key, n + (t.writable + tail));
    VectorInverts(t.writable, tail);
    VectorInverts(t.readonly, rest);
  }

  lemma {:induction false} TablesInvert(ts: seq<LookupTable>, rest: seq<Byte>)
    requires forall i :: 0 <= i < |ts| ==> ShortTable(ts[i]) && |ts[i].key| == 32
    ensures TablesRead(Some(SerializeTables(ts) + rest), |ts|)
  {
    hide SerializeTable, AfterTable;
    if ts != [] {
      Associates(SerializeTable(ts[0]), SerializeTables(ts[1..]), rest);
      TableInverts(ts[0], SerializeTables(ts[1..]) + rest);
      TablesInvert(ts[1..], rest);
    }
  }

  lemma EndInverts(t: Transaction, rest: seq<Byte>)
    requires WellFormed(t)
    ensures ParseEnd(t.version.Some?, Some(SerializeEnd(t) + rest))
  {
    hide CompactU16, CompactOf, AfterCompact, SerializeTables, TablesRead;
    if t.version.Some? {
      Associates(CompactU16(|t.tables|), SerializeTables(t.tables), rest);
      CompactInverts(|t.tables|, SerializeTables(t.tables) + rest);
      TablesInvert(t.tables, rest);
    }
  }

  function SerializeBody(t: Transaction): seq<Byte>
    requires WellFormed(t)
  {
    CompactU16(|t.keys|) + (Concat(t.keys) + (t.blockhash
    + (CompactU16(|t.calls|) + (SerializeCalls(t.calls) + SerializeEnd(t)))))
  }

  lemma BodyShape(t: Transaction, rest: seq<Byte>)
    requires WellFormed(t)
    ensures SerializeBody(t) + rest
         == CompactU16(|t.keys|) + (Concat(t.keys) + (t.blockhash
            + (CompactU16(|t.calls|) + (SerializeCalls(t.calls) + (SerializeEnd(t) + rest)))))
  {
    hide CompactU16, SerializeCalls, SerializeEnd, Concat;
    var n, m, e := CompactU16(|t.keys|), CompactU16(|t.calls|), SerializeEnd(t);
    Associates(n, Concat(t.keys) + (t.blockhash + (m + (SerializeCalls(t.calls) + e))), rest);
    Associates(Concat(t.keys), t.blockhash + (m + (SerializeCalls(t.calls) + e)), rest);
    Associates(t.blockhash, m + (SerializeCalls(t.calls) + e), rest);
    Associates(m, SerializeCalls(t.calls) + e, rest);
    Associates(SerializeCalls(t.calls), e, rest);
  }

  lemma BodyInverts(t: Transaction, signature: string, rest: seq<Byte>)
    requires WellFormed(t)
    ensures ParseBody(signature, t.version.Some?, Some(SerializeBody(t) + rest))
         == if AllInRange(t.calls, |t.keys|)
            then Some(Parsed(signature, Names(t.keys), AllNamed(t.calls, Names(t.keys)), t.version.Some?))
            else None
  {
    BodyShape(t, rest);
    hide CompactU16, CompactOf, AfterCompact, SerializeCalls, SerializeEnd, Concat, TakeMany, AfterMany, AfterBytes,
         CallsOf, ParseEnd, Names, AllNamed, AllInRange, SerializeBody;
    var last := SerializeEnd(t) + rest;
    var calls := SerializeCalls(t.calls) + last;
    var afterKeys := t.blockhash + (CompactU16(|t.calls|) + calls);
    CompactInverts(|t.keys|, Concat(t.keys) + afterKeys);
    ManyInvert(t.keys, 32, afterKeys);
    BytesInvert(t.blockhash, CompactU16(|t.calls|) + calls);
    CompactInverts(|t.calls|, calls);
    CallsInvert(t.calls, Names(t.keys), last);
    EndInverts(t, rest);
  }

  lemma PrefixInverts(t: Transaction, rest: seq<Byte>)
    requires WellFormed(t)
    ensures var c := Some(Prefix(t) + rest);
            && (ByteOf(c) >= 128 <==> t.version.Some?)
            && AfterByte(AfterByte(AfterByte(if t.version.Some? then AfterByte(c) else c))) == Some(rest)
  {
    var head := [t.signers, t.readonlySigned, t.readonlyUnsigned];
    if t.version.Some? {
      assert Prefix(t) + rest == [128 + t.version.value] + (head + rest);
      ByteInverts(128 + t.version.value, head + rest);
    } else {
      assert Prefix(t) + rest == head + rest;
    }
    assert head + rest == [t.signers] + ([t.readonlySigned] + ([t.readonlyUnsigned] + rest));
    ByteInverts(t.signers, [t.readonlySigned] + ([t.readonlyUnsigned] + rest));
    ByteInverts(t.readonlySigned, [t.readonlyUnsigned] + rest);
    ByteInverts(t.readonlyUnsigned, rest);
  }

  lemma TransactionShape(t: Transaction, rest: seq<Byte>)
    requires WellFormed(t)
    ensures Serialize(t) + rest
         == CompactU16(|t.signatures|) + (Concat(t.signatures) + (Prefix(t) + (SerializeBody(t) + rest)))
  {
    hide CompactU16, SerializeBody, Prefix, Concat, SerializeCalls, SerializeEnd;
    assert Serialize(t) == CompactU16(|t.signatures|) + (Concat(t.signatures) + (Prefix(t) + SerializeBody(t))) by {
      SerializeShape(t);
    }
    hide Serialize;
    Associates(CompactU16(|t.signatures|), Concat(t.signatures) + (Prefix(t) + SerializeBody(t)), rest);
    Associates(Concat(t.signatures), Prefix(t) + SerializeBody(t), rest);
    Associates(Prefix(t), SerializeBody(t), rest);
  }

  lemma SerializeShape(t: Transaction)
    requires WellFormed(t)
    ensures Serialize(t) == CompactU16(|t.signatures|) + (Concat(t.signatures) + (Prefix(t) + SerializeBody(t)))
  {
    hide CompactU16, Prefix, Concat, SerializeCalls, SerializeEnd;
  }

  /**
   * Every well-formed transaction, legacy or versioned, is parsed back, whatever bytes follow it, if its
   * instructions only use its own keys; and refused if one does not.
   */
  lemma ParseInvertsSerialize(t: Transaction, rest: seq<Byte>)
    requires WellFormed(t)
    ensures Parse(Serialize(t) + rest) == Expected(t)
  {
    TransactionShape(t, rest);
    hide Serialize, CompactU16, CompactOf, AfterCompact, SerializeBody, Prefix, Concat, TakeMany, AfterMany,
         ParseBody, ByteOf, AfterByte, Names, AllNamed, AllInRange;
    var body := SerializeBody(t) + rest;
    CompactInverts(|t.signatures|, Concat(t.signatures) + (Prefix(t) + body));
    ManyInvert(t.signatures, 64, Prefix(t) + body);
    PrefixInverts(t, body);
    BodyInverts(t, B.EncodeSpec(t.signatures[0]), rest);
  }

  /** No signature, more than 64, no key and more than 256 are errors, whatever follows. */
  lemma CountsAreBounded(n: nat, signature: string, versioned: bool, rest: seq<Byte>)
    requires n < 0x10000
    ensures n == 0 || n > 64 ==> Parse(CompactU16(n) + rest) == None
    ensures n == 0 || n > 256 ==> ParseBody(signature, versioned, Some(CompactU16(n) + rest)) == None
  {
    hide CompactU16, CompactOf, AfterCompact;
    CompactInverts(n, rest);
  }

  /** What a client reads in a parsed transaction, with every name decoded again. */
  ghost predicate ReadsBack(t: Transaction, p: Parsed)
    requires t.signatures != []
  {
    && B.IsText(p.signature) && B.DecodeSpec(p.signature) == t.signatures[0]
    && p.versioned == t.version.Some?
    && |p.keys| == |t.keys|
    && (forall i :: 0 <= i < |t.keys| ==> B.IsText(p.keys[i]) && B.DecodeSpec(p.keys[i]) == t.keys[i])
    && |p.instructions| == |t.calls|
    && forall i :: 0 <= i < |t.calls| ==> ReadsBackCall(t.calls[i], t.keys, p.instructions[i])
  }

  /** The program, the accounts in their order, and the data. */
  ghost predicate ReadsBackCall(c: Call, keys: seq<seq<Byte>>, x: Instruction) {
    && c.program < |keys| && B.IsText(x.programId) && B.DecodeSpec(x.programId) == keys[c.program]
    && |x.accounts| == |c.accounts|
    && (forall j :: 0 <= j < |c.accounts| ==>
          && c.accounts[j] < |keys| && B.IsText(x.accounts[j]) && B.DecodeSpec(x.accounts[j]) == keys[c.accounts[j]])
    && x.rawData == c.data
  }

  lemma CallReadsBack(c: Call, keys: seq<seq<Byte>>)
    requires InRange(c, |keys|)
    ensures ReadsBackCall(c, keys, Named(c, Names(keys)))
  {
    hide B.EncodeSpec, B.DecodeSpec, B.IsText;
    B.DecodeEncode(keys[c.program]);
    forall j | 0 <= j < |c.accounts|
      ensures B.IsText(B.EncodeSpec(keys[c.accounts[j]]))
      ensures B.DecodeSpec(B.EncodeSpec(keys[c.accounts[j]])) == keys[c.accounts[j]]
    {
      B.DecodeEncode(keys[c.accounts[j]]);
    }
  }

  lemma NamesReadBack(keys: seq<seq<Byte>>)
    ensures forall i :: 0 <= i < |keys| ==> B.IsText(Names(keys)[i]) && B.DecodeSpec(Names(keys)[i]) == keys[i]
  {
    hide B.EncodeSpec, B.DecodeSpec, B.IsText;
    forall i | 0 <= i < |keys|
      ensures B.IsText(Names(keys)[i]) && B.DecodeSpec(Names(keys)[i]) == keys[i]
    {
      B.DecodeEncode(keys[i]);
    }
  }

  lemma CallsReadBack(cs: seq<Call>, keys: seq<seq<Byte>>)
    requires AllInRange(cs, |keys|)
    ensures forall i :: 0 <= i < |cs| ==> ReadsBackCall(cs[i], keys, AllNamed(cs, Names(keys))[i])
  {
    hide ReadsBackCall, Names, Named;
    forall i | 0 <= i < |cs|
      ensures ReadsBackCall(cs[i], keys, AllNamed(cs, Names(keys))[i])
    {
      CallReadsBack(cs[i], keys);
    }
  }

  /**
   * Parsing a serialized transaction whose instructions only use its own keys gives a client the first
   * signature, the keys, and of every instruction its program, its accounts and its data.
   */
  lemma ParsedReadsBack(t: Transaction, rest: seq<Byte>)
    requires WellFormed(t)
    requires forall i :: 0 <= i < |t.calls| ==>
               && t.calls[i].program < |t.keys|
               && forall j :: 0 <= j < |t.calls[i].accounts| ==> t.calls[i].accounts[j] < |t.keys|
    ensures Parse(Serialize(t) + rest).Some? && ReadsBack(t, Parse(Serialize(t) + rest).value)
  {
    ParseInvertsSerialize(t, rest);
    assert AllInRange(t.calls, |t.keys|);
    B.DecodeEncode(t.signatures[0]);
    NamesReadBack(t.keys);
    CallsReadBack(t.calls, t.keys);
    hide B.EncodeSpec, B.DecodeSpec, B.IsText, Parse, Serialize, Names, AllNamed, ReadsBackCall, InRange, AllInRange,
         WellFormed;
  }

  /** So a legal transaction is parsed if and only if no instruction uses an account it looks up. */
  lemma ParsedUnlessLookedUp(t: Transaction, rest: seq<Byte>)
    requires Legal(t)
    ensures Parse(Serialize(t) + rest).Some? <==> !UsesLookup(t)
  {
    hide Serialize, Parse;
    ParseInvertsSerialize(t, rest);
    if AllInRange(t.calls, |t.keys|) {
      forall i | 0 <= i < |t.calls|
        ensures forall j :: 0 <= j < |t.calls[i].accounts| ==> t.calls[i].accounts[j] < |t.keys|
      {
        assert InRange(t.calls[i], |t.keys|);
      }
    }
  }

  /** A legal versioned transaction with one key, one looked-up account and one instruction that uses it. */
  function LookingUp(signature: seq<Byte>, key: seq<Byte>, table: seq<Byte>, blockhash: seq<Byte>): Transaction {
    Transaction([signature], Some(0), 1, 0, 0, [key], blockhash,
                [Call(0, [1], [])], [LookupTable(table, [0], [])])
  }

  lemma LegalButRefused(signature: seq<Byte>, key: seq<Byte>, table: seq<Byte>, blockhash: seq<Byte>, rest: seq<Byte>)
    requires |signature| == 64 && |key| == |table| == |blockhash| == 32
    ensures var t := LookingUp(signature, key, table, blockhash);
            Legal(t) && UsesLookup(t) && Parse(Serialize(t) + rest) == None
  {
    var t := LookingUp(signature, key, table, blockhash);
    hide Serialize, Parse;
    assert t.calls[0].accounts[0] == 1;
    ParsedUnlessLookedUp(t, rest);
  }
}
