/**
 * The wire format of the hand-written protobuf messages: base-128 varints, tags, length-delimited
 * values, and a decoder that goes through a message field by field.
 */
module Wire {
  import opened Options
  import F = Field

  type Byte = F.Byte

  const TWO_32 := 0x1_0000_0000
  const TWO_63 := 0x8000_0000_0000_0000
  const TWO_64 := 0x1_0000_0000_0000_0000

  type Int32 = x: int | -0x8000_0000 <= x < 0x8000_0000

  /** A value and the number of bytes it took. */
  datatype Read<T> = Read(value: T, size: nat)

  // ---- Varints ----

  function AppendVarint(v: nat): (b: seq<Byte>)
    ensures |b| > 0
  {
    if v < 128 then [v] else [v % 128 + 128] + AppendVarint(v / 128)
  }

  /** At most ten bytes, the tenth of which may only hold the last bit of 64. */
  function VarintAt(b: seq<Byte>, k: nat): (r: Option<Read<nat>>)
    requires k <= 9
    ensures r.Some? ==> 0 < r.value.size <= |b|
    decreases 9 - k
  {
    if b == [] then None
    else if k == 9 then (if b[0] < 2 then Some(Read(b[0], 1)) else None)
    else if b[0] < 128 then Some(Read(b[0], 1))
    else
      match VarintAt(b[1..], k + 1)
      case None => None
      case Some(r) => Some(Read(b[0] - 128 + 128 * r.value, r.size + 1))
  }

  function ConsumeVarint(b: seq<Byte>): (r: Option<Read<nat>>)
    ensures r.Some? ==> 0 < r.value.size <= |b|
  {
    VarintAt(b, 0)
  }

  /** The value of groups of seven bits, the lowest group first. */
  function GroupsValue(b: seq<Byte>): nat {
    if b == [] then 0 else b[0] % 128 + 128 * GroupsValue(b[1..])
  }

  /** The top bit says that more follows, the other seven carry the value, and no group is wasted. */
  lemma {:induction false} VarintLayout(v: nat)
    ensures var b := AppendVarint(v);
            && (forall i :: 0 <= i < |b| ==> (b[i] >= 128 <==> i < |b| - 1))
            && GroupsValue(b) == v
            && (|b| > 1 ==> b[|b| - 1] != 0)
  {
    var b := AppendVarint(v);
    if v < 128 {
      assert b[1..] == [];
    } else {
      VarintLayout(v / 128);
      var rest := AppendVarint(v / 128);
      assert b == [v % 128 + 128] + rest && b[1..] == rest;
      assert forall i :: 0 < i < |b| ==> b[i] == rest[i - 1];
    }
  }

  /** What is left of 64 bits after k groups of seven. */
  function Left(k: nat): nat
    requires k <= 9
    decreases 9 - k
  {
    if k == 9 then 2 else 128 * Left(k + 1)
  }

  lemma {:induction false} VarintAtInverts(v: nat, rest: seq<Byte>, k: nat)
    requires k <= 9 && v < Left(k)
    ensures VarintAt(AppendVarint(v) + rest, k) == Some(Read(v, |AppendVarint(v)|))
    decreases 9 - k
  {
    if k < 9 && v >= 128 {
      var b := AppendVarint(v) + rest;
      assert b[1..] == AppendVarint(v / 128) + rest;
      VarintAtInverts(v / 128, rest, k + 1);
    }
  }

  lemma AllLeft()
    ensures Left(0) == TWO_64
  {
    assert Left(8) == 256 && Left(7) == 32768 && Left(6) == 4194304;
    assert Left(5) == 0x2000_0000 && Left(4) == 0x10_0000_0000;
    assert Left(3) == 0x800_0000_0000 && Left(2) == 0x4_0000_0000_0000;
    assert Left(1) == 0x200_0000_0000_0000;
  }

  /** Every 64-bit value survives, whatever follows it. */
  lemma VarintInverts(v: nat, rest: seq<Byte>)
    requires v < TWO_64
    ensures ConsumeVarint(AppendVarint(v) + rest) == Some(Read(v, |AppendVarint(v)|))
  {
    AllLeft();
    VarintAtInverts(v, rest, 0);
  }

  // ---- Signed values ----

  /** A 32-bit number as it travels: converted to unsigned. */
  function ToUint32(x: int): (v: nat)
    ensures v < TWO_32 && (-0x8000_0000 <= x < 0x8000_0000 ==> (v == 0 <==> x == 0))
  {
    x % TWO_32
  }

  /** Truncation to 32 bits, read as two's complement. */
  function ToInt32(v: nat): Int32 {
    var w := v % TWO_32;
    if w < 0x8000_0000 then w else w - TWO_32
  }

  /** All groups but the last say that more follows. */
  predicate Grouped(b: seq<Byte>) {
    forall i :: 0 <= i < |b| ==> (b[i] >= 128 <==> i < |b| - 1)
  }

  lemma MoreGroups(b: seq<Byte>, size: nat)
    requires 1 < size <= |b| && b[0] >= 128 && Grouped(b[1..][..size - 1])
    ensures Grouped(b[..size]) && GroupsValue(b[..size]) == b[0] - 128 + 128 * GroupsValue(b[1..][..size - 1])
  {
    var rest := b[1..][..size - 1];
    assert b[..size] == [b[0]] + rest && b[..size][1..] == rest;
  }

  lemma {:induction false} VarintAtReads(b: seq<Byte>, k: nat)
    requires k <= 9 && VarintAt(b, k).Some?
    ensures var r := VarintAt(b, k).value;
            r.size <= 10 - k && r.value < Left(k) && GroupsValue(b[..r.size]) == r.value && Grouped(b[..r.size])
    decreases 9 - k
  {
    var r := VarintAt(b, k).value;
    LeftOver(k);
    hide Left, Grouped, GroupsValue;
    if k == 9 || b[0] < 128 {
      LastGroup(b[0]);
      assert b[..1] == [b[0]];
    } else {
      VarintAtReads(b[1..], k + 1);
      MoreGroups(b, r.size);
    }
  }

  lemma LastGroup(x: Byte)
    requires x < 128
    ensures Grouped([x]) && GroupsValue([x]) == x
  {
    assert [x][1..] == [];
  }

  lemma {:induction false} LeftOver(k: nat)
    requires k <= 9
    ensures Left(9) == 2 && Left(k) >= 2 && (k < 9 ==> Left(k) == 128 * Left(k + 1) && Left(k) >= 128)
    decreases 9 - k
  {
    if k < 9 {
      LeftOver(k + 1);
    }
  }

  /** What is read as a varint is a number of 64 bits in at most ten bytes, by its groups. */
  lemma VarintReads(b: seq<Byte>)
    requires ConsumeVarint(b).Some?
    ensures var r := ConsumeVarint(b).value;
            && r.size <= 10 && r.value < 0x1_0000_0000_0000_0000 && GroupsValue(b[..r.size]) == r.value
            && forall i :: 0 <= i < r.size ==> (b[i] >= 128 <==> i < r.size - 1)
  {
    hide Left, VarintAt, GroupsValue;
    VarintAtReads(b, 0);
    AllLeft();
  }

  /** A negative number travels as itself plus 2^32, and any 64-bit value is read modulo 2^32. */
  lemma TwosComplement(x: Int32, v: nat)
    ensures ToUint32(x) == (if x < 0 then x + 0x1_0000_0000 else x)
    ensures exists k: int :: v - ToInt32(v) == 0x1_0000_0000 * k
  {
    var q := v / 0x1_0000_0000;
    assert v - ToInt32(v) == 0x1_0000_0000 * (if v % 0x1_0000_0000 < 0x8000_0000 then q else q + 1);
  }

  lemma Int32Survives(x: Int32)
    ensures ToInt32(ToUint32(x)) == x
  {
  }

  // ---- Tags and values ----

  datatype Kind = VarintKind | BytesKind | UnknownKind

  datatype Value = Varint(num: nat, v: nat) | Bytes(num: nat, bs: seq<Byte>) | Skipped

  function AppendTag(num: nat, wireType: nat): seq<Byte> {
    AppendVarint(8 * num + wireType)
  }

  datatype Tag = Tag(num: nat, wireType: nat)

  function ConsumeTag(b: seq<Byte>): (r: Option<Read<Tag>>)
    ensures r.Some? ==> 0 < r.value.size <= |b|
  {
    match ConsumeVarint(b)
    case None => None
    case Some(r) =>
      var num := r.value / 8;
      if num < 1 || num > 0x7fff_ffff then None else Some(Read(Tag(num, r.value % 8), r.size))
  }

  function ConsumeBytes(b: seq<Byte>): (r: Option<Read<seq<Byte>>>)
    ensures r.Some? ==> 0 < r.value.size <= |b|
  {
    match ConsumeVarint(b)
    case None => None
    case Some(r) =>
      if r.value > |b| - r.size then None
      else Some(Read(b[r.size..r.size + r.value], r.size + r.value))
  }

  /** The length of a value whose field nobody knows; groups are refused. */
  function SkipValue(wireType: nat, b: seq<Byte>): (r: Option<nat>)
    ensures r.Some? ==> 0 < r.value <= |b|
  {
    if wireType == 0 then
      match ConsumeVarint(b) case None => None case Some(r) => Some(r.size)
    else if wireType == 1 then
      if |b| < 8 then None else Some(8)
    else if wireType == 2 then
      match ConsumeBytes(b) case None => None case Some(r) => Some(r.size)
    else if wireType == 5 then
      if |b| < 4 then None else Some(4)
    else None
  }

  /** One field; which kind of value follows is decided by the number, not by the wire type. */
  function ParseField(kind: nat -> Kind, b: seq<Byte>): (r: Option<Read<Value>>)
    ensures r.Some? ==> 0 < r.value.size <= |b|
  {
    match ConsumeTag(b)
    case None => None
    case Some(t) =>
      var rest := b[t.size..];
      match kind(t.value.num)
      case VarintKind =>
        (match ConsumeVarint(rest)
         case None => None
         case Some(r) => Some(Read(Varint(t.value.num, r.value), t.size + r.size)))
      case BytesKind =>
        (match ConsumeBytes(rest)
         case None => None
         case Some(r) => Some(Read(Bytes(t.value.num, r.value), t.size + r.size)))
      case UnknownKind =>
        (match SkipValue(t.value.wireType, rest)
         case None => None
         case Some(n) => Some(Read(Skipped, t.size + n)))
  }

  /** What the encoders append for one field that is not at its default. */
  function AppendField(f: Value): seq<Byte> {
    match f
    case Varint(num, v) => AppendTag(num, 0) + AppendVarint(v)
    case Bytes(num, bs) => AppendTag(num, 2) + (AppendVarint(|bs|) + bs)
    case Skipped => []
  }

  predicate Encodable(kind: nat -> Kind, f: Value) {
    match f
    case Varint(num, v) => 1 <= num <= 0x7fff_ffff && v < TWO_64 && kind(num).VarintKind?
    case Bytes(num, bs) => 1 <= num <= 0x7fff_ffff && |bs| < TWO_63 && kind(num).BytesKind?
    case Skipped => false
  }

  lemma TagInverts(num: nat, wireType: nat, rest: seq<Byte>)
    requires 1 <= num <= 0x7fff_ffff && wireType < 8
    ensures ConsumeTag(AppendTag(num, wireType) + rest) == Some(Read(Tag(num, wireType), |AppendTag(num, wireType)|))
  {
    VarintInverts(8 * num + wireType, rest);
  }

  /** A tag is read from any varint; a field number below 1 or above 2^31 - 1 is an error. */
  lemma TagReads(v: nat, rest: seq<Byte>)
    requires v < TWO_64
    ensures ConsumeTag(AppendVarint(v) + rest)
         == if 1 <= v / 8 <= 0x7fff_ffff then Some(Read(Tag(v / 8, v % 8), |AppendVarint(v)|)) else None
  {
    hide AppendVarint, ConsumeVarint;
    VarintInverts(v, rest);
  }

  /** Bytes are read exactly when as many as their length says are there. */
  lemma BytesRead(n: nat, rest: seq<Byte>)
    requires n < TWO_64
    ensures var size := |AppendVarint(n)|;
            ConsumeBytes(AppendVarint(n) + rest) == if n <= |rest| then Some(Read(rest[..n], size + n)) else None
  {
    hide AppendVarint, ConsumeVarint;
    VarintInverts(n, rest);
    var b, size := AppendVarint(n) + rest, |AppendVarint(n)|;
    assert |b| - size == |rest|;
    if n <= |rest| {
      assert b[size..size + n] == rest[..n];
    }
  }

  lemma BytesInvert(bs: seq<Byte>, rest: seq<Byte>)
    requires |bs| < TWO_63
    ensures ConsumeBytes((AppendVarint(|bs|) + bs) + rest) == Some(Read(bs, |AppendVarint(|bs|) + bs|))
  {
    hide VarintAt, AppendVarint;
    var n := |AppendVarint(|bs|)|;
    var b := (AppendVarint(|bs|) + bs) + rest;
    assert b == AppendVarint(|bs|) + (bs + rest);
    VarintInverts(|bs|, bs + rest);
    assert b[n..n + |bs|] == bs;
  }

  /** A field that was appended is the field that is read, whatever follows it. */
  lemma FieldInverts(kind: nat -> Kind, f: Value, rest: seq<Byte>)
    requires Encodable(kind, f)
    ensures ParseField(kind, AppendField(f) + rest) == Some(Read(f, |AppendField(f)|))
  {
    hide ConsumeTag, ConsumeBytes, ConsumeVarint, AppendVarint, AppendTag;
    match f
    case Varint(num, v) =>
      var b := AppendField(f) + rest;
      var t := AppendTag(num, 0);
      assert b == t + (AppendVarint(v) + rest);
      TagInverts(num, 0, AppendVarint(v) + rest);
      assert b[|t|..] == AppendVarint(v) + rest;
      VarintInverts(v, rest);
    case Bytes(num, bs) =>
      var b := AppendField(f) + rest;
      var t := AppendTag(num, 2);
      assert b == t + ((AppendVarint(|bs|) + bs) + rest);
      TagInverts(num, 2, (AppendVarint(|bs|) + bs) + rest);
      assert b[|t|..] == (AppendVarint(|bs|) + bs) + rest;
      BytesInvert(bs, rest);
  }

  // ---- Messages ----

  /** A decoder's loop: read a field, store it, go on with the rest. */
  function DecodeFrom<T>(kind: nat -> Kind, store: (T, Value) -> Option<T>, m: T, b: seq<Byte>): Option<T>
    decreases |b|
  {
    if b == [] then Some(m)
    else
      match ParseField(kind, b)
      case None => None
      case Some(r) =>
        match store(m, r.value)
        case None => None
        case Some(m') => DecodeFrom(kind, store, m', b[r.size..])
  }

  function AppendFields(fs: seq<Value>): seq<Byte> {
    if fs == [] then [] else AppendField(fs[0]) + AppendFields(fs[1..])
  }

  function StoreAll<T>(store: (T, Value) -> Option<T>, m: T, fs: seq<Value>): Option<T> {
    if fs == [] then Some(m)
    else match store(m, fs[0]) case None => None case Some(m') => StoreAll(store, m', fs[1..])
  }

  /** Decoding what was encoded stores exactly the encoded fields, in order. */
  lemma {:induction false} FieldsInvert<T>(
      kind: nat -> Kind, store: (T, Value) -> Option<T>, m: T, fs: seq<Value>)
    requires forall i :: 0 <= i < |fs| ==> Encodable(kind, fs[i])
    ensures DecodeFrom(kind, store, m, AppendFields(fs)) == StoreAll(store, m, fs)
  {
    hide ParseField, AppendField;
    if fs != [] {
      var f, rest := fs[0], AppendFields(fs[1..]);
      FieldInverts(kind, f, rest);
      assert AppendField(f) != [] by { FieldNotEmpty(kind, f); }
      assert (AppendField(f) + rest)[|AppendField(f)|..] == rest;
      match store(m, f)
      case None =>
      case Some(m') => FieldsInvert(kind, store, m', fs[1..]);
    }
  }

  lemma FieldNotEmpty(kind: nat -> Kind, f: Value)
    requires Encodable(kind, f)
    ensures AppendField(f) != []
  {
  }

  lemma {:induction false} AppendFieldsAppend(fs: seq<Value>, gs: seq<Value>)
    ensures AppendFields(fs + gs) == AppendFields(fs) + AppendFields(gs)
  {
    if fs == [] {
      assert fs + gs == gs;
    } else {
      assert (fs + gs)[0] == fs[0] && (fs + gs)[1..] == fs[1..] + gs;
      AppendFieldsAppend(fs[1..], gs);
    }
  }

  lemma {:induction false} StoreAllAppend<T>(store: (T, Value) -> Option<T>, m: T, fs: seq<Value>, gs: seq<Value>)
    ensures StoreAll(store, m, fs + gs)
         == match StoreAll(store, m, fs) case None => None case Some(m') => StoreAll(store, m', gs)
  {
    if fs == [] {
      assert fs + gs == gs;
    } else {
      assert (fs + gs)[0] == fs[0] && (fs + gs)[1..] == fs[1..] + gs;
      match store(m, fs[0])
      case None =>
      case Some(m') => StoreAllAppend(store, m', fs[1..], gs);
    }
  }

  /** The example of the encoding guide: field 1 with value 150, and field 2 with the text "testing". */
  lemma GuideExamples()
    ensures AppendField(Varint(1, 150)) == [0x08, 0x96, 0x01]
    ensures AppendField(Bytes(2, [0x74, 0x65, 0x73, 0x74, 0x69, 0x6e, 0x67]))
         == [0x12, 0x07, 0x74, 0x65, 0x73, 0x74, 0x69, 0x6e, 0x67]
  {
    assert AppendVarint(150) == [0x96, 0x01];
  }

  /** A fixed-width value of an unknown field is skipped as well. */
  lemma FixedFieldsAreSkipped<T>(
      kind: nat -> Kind, store: (T, Value) -> Option<T>, m: T, num: nat, wide: bool, bs: seq<Byte>, rest: seq<Byte>)
    requires 1 <= num <= 0x7fff_ffff && kind(num).UnknownKind? && store(m, Skipped) == Some(m)
    requires |bs| == if wide then 8 else 4
    ensures DecodeFrom(kind, store, m, AppendVarint(8 * num + (if wide then 1 else 5)) + bs + rest)
         == DecodeFrom(kind, store, m, rest)
  {
    hide ConsumeTag, ConsumeBytes, ConsumeVarint, AppendVarint;
    var wireType := if wide then 1 else 5;
    var t := AppendTag(num, wireType);
    var b := t + bs + rest;
    assert b == t + (bs + rest);
    TagInverts(num, wireType, bs + rest);
    assert b[|t|..] == bs + rest;
    assert b[|t| + |bs|..] == rest;
  }

  /** A field with a number nobody knows changes nothing, whatever its value. */
  lemma UnknownFieldsAreSkipped<T>(
      kind: nat -> Kind, store: (T, Value) -> Option<T>, m: T, f: Value, rest: seq<Byte>)
    requires f.Varint? || f.Bytes?
    requires 1 <= f.num <= 0x7fff_ffff && kind(f.num).UnknownKind? && store(m, Skipped) == Some(m)
    requires f.Varint? ==> f.v < TWO_64
    requires f.Bytes? ==> |f.bs| < TWO_63
    ensures DecodeFrom(kind, store, m, AppendField(f) + rest) == DecodeFrom(kind, store, m, rest)
  {
    hide ConsumeTag, ConsumeBytes, ConsumeVarint, AppendVarint, AppendTag;
    var t := AppendTag(f.num, if f.Varint? then 0 else 2);
    var body := if f.Varint? then AppendVarint(f.v) else AppendVarint(|f.bs|) + f.bs;
    var b := AppendField(f) + rest;
    assert b == t + (body + rest);
    TagInverts(f.num, if f.Varint? then 0 else 2, body + rest);
    assert b[|t|..] == body + rest;
    if f.Varint? {
      VarintInverts(f.v, rest);
    } else {
      BytesInvert(f.bs, rest);
    }
    assert b[|t| + |body|..] == rest;
  }
}
