/** The reader and the parsing routine as they are written, proved against SolanaParser's Parse. */
module TransactionReader {
  import opened Options
  import opened SolanaParser
  import B = Base58

  class Reader {
    const buf: seq<Byte>
    var pos: nat
    var failed: bool

    ghost predicate Valid()
      reads this
    {
      pos <= |buf|
    }

    /** What is left to read, or nothing once a read has failed. */
    ghost function Left(): Cursor
      reads this
      requires Valid()
    {
      if failed then None else Some(buf[pos..])
    }

    constructor (raw: seq<Byte>)
      ensures Valid() && Left() == Some(raw)
    {
      buf, pos, failed := raw, 0, false;
    }

    method Peek() returns (v: Byte)
      requires Valid()
      ensures v == ByteOf(Left())
    {
      if failed || pos >= |buf| {
        return 0;
      }
      v := buf[pos];
    }

    method Uint8() returns (v: Byte)
      requires Valid()
      modifies this
      ensures Valid() && v == ByteOf(old(Left())) && Left() == AfterByte(old(Left()))
    {
      if failed {
        return 0;
      }
      if pos >= |buf| {
        failed := true;
        return 0;
      }
      v := buf[pos];
      pos := pos + 1;
    }

    method Bytes(n: nat) returns (bs: seq<Byte>)
      requires Valid()
      modifies this
      ensures Valid() && bs == BytesOf(old(Left()), n) && Left() == AfterBytes(old(Left()), n)
    {
      if failed {
        return [];
      }
      if pos + n > |buf| {
        failed := true;
        return [];
      }
      bs := buf[pos..pos + n];
      pos := pos + n;
    }

    method CompactU16() returns (v: nat)
      requires Valid()
      modifies this
      ensures Valid() && v == CompactOf(old(Left()), 0) && Left() == AfterCompact(old(Left()), 0)
    {
      hide CompactOf, AfterCompact;
      CompactFails(Left());
      v := 0;
      var scale := 1;
      for i := 0 to 3
        invariant Valid() && scale > 0 && (i > 0 ==> !failed)
        invariant AfterCompact(old(Left()), 0) == AfterCompact(Left(), i)
        invariant AfterCompact(Left(), i).None? ==> CompactOf(old(Left()), 0) == 0
        invariant AfterCompact(Left(), i).Some? ==> CompactOf(old(Left()), 0) == v + scale * CompactOf(Left(), i)
      {
        CompactStep(Left(), i);
        ghost var before := Left();
        var b := Uint8();
        if failed {
          return 0;
        }
        Scaled(scale, b, CompactOf(Left(), i + 1));
        v := v + b % 128 * scale;
        if b < 128 {
          return v;
        }
        scale := scale * 128;
      }
      CompactEnd(Left());
    }

    /** Several byte strings of the same size. */
    method Many(n: nat, size: nat) returns (xs: seq<seq<Byte>>)
      requires Valid()
      modifies this
      ensures Valid() && xs == TakeMany(old(Left()), n, size) && Left() == AfterMany(old(Left()), n, size)
    {
      xs := [];
      for i := 0 to n
        invariant Valid()
        invariant xs + TakeMany(Left(), n - i, size) == TakeMany(old(Left()), n, size)
        invariant AfterMany(Left(), n - i, size) == AfterMany(old(Left()), n, size)
      {
        var x := Bytes(size);
        xs := xs + [x];
      }
    }
  }

  lemma CompactStep(c: Cursor, i: nat)
    requires i < 3
    ensures AfterByte(c).None? ==> AfterCompact(c, i).None? && CompactOf(c, i) == 0
    ensures AfterByte(c).Some? && ByteOf(c) < 128 ==> AfterCompact(c, i) == AfterByte(c) && CompactOf(c, i) == ByteOf(c)
    ensures AfterByte(c).Some? && ByteOf(c) >= 128 ==>
              && AfterCompact(c, i) == AfterCompact(AfterByte(c), i + 1)
              && (AfterCompact(c, i).None? ==> CompactOf(c, i) == 0)
              && (AfterCompact(c, i).Some? ==>
                    CompactOf(c, i) == ByteOf(c) - 128 + 128 * CompactOf(AfterByte(c), i + 1))
  {
  }

  lemma CompactFails(c: Cursor)
    ensures AfterCompact(c, 0).None? ==> CompactOf(c, 0) == 0
  {
  }

  lemma CompactEnd(c: Cursor)
    ensures AfterCompact(c, 3) == c && CompactOf(c, 3) == 0
  {
  }

  lemma Scaled(scale: nat, b: Byte, more: nat)
    ensures b < 128 ==> b % 128 * scale == scale * b
    ensures b >= 128 ==> b % 128 * scale + (scale * 128) * more == scale * (b - 128 + 128 * more)
  {
    if b >= 128 {
      var x, y := b - 128, 128 * more;
      assert scale * (x + y) == scale * x + scale * y;
      assert (scale * 128) * more == scale * (128 * more);
    }
  }

  method ResolveAccounts(indices: seq<Byte>, names: seq<string>) returns (r: Option<seq<string>>)
    ensures r.Some? <==> forall j :: 0 <= j < |indices| ==> indices[j] < |names|
    ensures r.Some? ==> |r.value| == |indices| && forall j :: 0 <= j < |indices| ==> r.value[j] == names[indices[j]]
  {
    var accounts := [];
    for j := 0 to |indices|
      invariant |accounts| == j && forall k :: 0 <= k < j ==> indices[k] < |names| && accounts[k] == names[indices[k]]
    {
      if indices[j] >= |names| {
        return None;
      }
      accounts := accounts + [names[indices[j]]];
    }
    r := Some(accounts);
  }

  /** One instruction, or nothing after a short read or with an index out of range. */
  method ParseCall(r: Reader, names: seq<string>) returns (instr: Option<Instruction>)
    requires r.Valid()
    modifies r
    ensures r.Valid() && r.Left() == AfterCall(old(r.Left()))
    ensures instr.Some? <==> AfterCall(old(r.Left())).Some? && InRange(CallOf(old(r.Left())), |names|)
    ensures instr.Some? ==> instr.value == Named(CallOf(old(r.Left())), names)
  {
    hide CompactOf, AfterCompact, ByteOf, AfterByte, BytesOf, AfterBytes;
    var program := r.Uint8();
    var accountCount := r.CompactU16();
    var indices := r.Bytes(accountCount);
    var dataLength := r.CompactU16();
    var data := r.Bytes(dataLength);
    if r.failed {
      return None;
    }
    if program >= |names| {
      return None;
    }
    var accounts := ResolveAccounts(indices, names);
    if accounts.None? {
      return None;
    }
    instr := Some(Instruction(names[program], accounts.value, data));
  }

  method ParseCalls(r: Reader, n: nat, names: seq<string>) returns (instrs: Option<seq<Instruction>>)
    requires r.Valid()
    modifies r
    ensures r.Valid()
    ensures match CallsOf(old(r.Left()), n, names)
            case None => instrs.None?
            case Some(x) => instrs == Some(x.0) && r.Left() == x.1
  {
    hide CallOf, AfterCall, InRange, Named;
    var done: seq<Instruction> := [];
    assert forall x: seq<Instruction> :: [] + x == x;
    for i := 0 to n
      invariant r.Valid()
      invariant match CallsOf(r.Left(), n - i, names)
                case None => CallsOf(old(r.Left()), n, names).None?
                case Some(x) => CallsOf(old(r.Left()), n, names) == Some((done + x.0, x.1))
    {
      ghost var before := r.Left();
      var instr := ParseCall(r, names);
      if instr.None? {
        return None;
      }
      ghost var rest := CallsOf(r.Left(), n - i - 1, names);
      if rest.Some? {
        assert done + ([instr.value] + rest.value.0) == (done + [instr.value]) + rest.value.0;
      }
      done := done + [instr.value];
    }
    assert done + [] == done;
    instrs := Some(done);
  }

  method ParseTables(r: Reader, n: nat) returns (ok: bool)
    requires r.Valid()
    modifies r
    ensures r.Valid() && ok == TablesRead(old(r.Left()), n)
  {
    hide TablesRead, AfterTable;
    for i := 0 to n
      invariant r.Valid() && TablesRead(old(r.Left()), n) == TablesRead(r.Left(), n - i)
    {
      TablesStep(r.Left(), n - i);
      ParseTable(r);
      if r.failed {
        return false;
      }
    }
    TablesEnd(r.Left());
    ok := true;
  }

  lemma TablesStep(c: Cursor, n: nat)
    requires n > 0
    ensures TablesRead(c, n) <==> AfterTable(c).Some? && TablesRead(AfterTable(c), n - 1)
  {
  }

  lemma TablesEnd(c: Cursor)
    ensures TablesRead(c, 0)
  {
  }

  method ParseTable(r: Reader)
    requires r.Valid()
    modifies r
    ensures r.Valid() && r.Left() == AfterTable(old(r.Left()))
  {
    hide CompactOf, AfterCompact, BytesOf, AfterBytes;
    var _ := r.Bytes(32);
    var writeCount := r.CompactU16();
    var _ := r.Bytes(writeCount);
    var readCount := r.CompactU16();
    var _ := r.Bytes(readCount);
  }

  method EncodeAll(xs: seq<seq<Byte>>) returns (names: seq<string>)
    ensures names == Names(xs)
  {
    names := [];
    for i := 0 to |xs|
      invariant |names| == i && forall j :: 0 <= j < i ==> names[j] == B.EncodeSpec(xs[j])
    {
      var s := B.Base58Encode(xs[i]);
      names := names + [s];
    }
  }

  method ParseRawTransaction(raw: seq<Byte>) returns (p: Option<Parsed>)
    ensures p == Parse(raw)
  {
    hide CompactOf, AfterCompact, AfterMany, TakeMany, ByteOf, AfterByte, ParseBody;
    var r := new Reader(raw);
    var sigCount := r.CompactU16();
    if r.failed || sigCount == 0 || sigCount > 64 {
      return None;
    }
    var sigs := r.Many(sigCount, 64);
    if r.failed {
      return None;
    }
    var first := r.Peek();
    var versioned := first >= 128;
    if versioned {
      var _ := r.Uint8();
    }
    var _ := r.Uint8();
    var _ := r.Uint8();
    var _ := r.Uint8();
    var signature := B.Base58Encode(sigs[0]);
    p := ParseMessage(r, signature, versioned);
  }

  method ParseMessage(r: Reader, signature: string, versioned: bool) returns (p: Option<Parsed>)
    requires r.Valid()
    modifies r
    ensures p == ParseBody(signature, versioned, old(r.Left()))
  {
    hide CompactOf, AfterCompact, AfterMany, TakeMany, AfterBytes, Names, CallsOf, TablesRead;
    var keyCount := r.CompactU16();
    if r.failed || keyCount == 0 || keyCount > 256 {
      return None;
    }
    var rawKeys := r.Many(keyCount, 32);
    var keys := EncodeAll(rawKeys);
    var _ := r.Bytes(32);
    var instrCount := r.CompactU16();
    if r.failed {
      return None;
    }
    var instrs := ParseCalls(r, instrCount, keys);
    if instrs.None? {
      return None;
    }
    if versioned {
      var tableCount := r.CompactU16();
      var ok := ParseTables(r, tableCount);
      if !ok {
        return None;
      }
    }
    p := Some(Parsed(signature, keys, instrs.value, versioned));
  }

  /** So the routine returns what was serialized, or refuses it, for every well-formed transaction. */
  method ParseSerialized(t: Transaction) returns (p: Option<Parsed>)
    requires WellFormed(t)
    ensures p == Expected(t)
  {
    ParseInvertsSerialize(t, []);
    assert Serialize(t) + [] == Serialize(t);
    p := ParseRawTransaction(Serialize(t));
  }
}
