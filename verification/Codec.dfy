/** The encoders and decoders as they are written: appending to a buffer, and looping over fields. */
module Codec {
  import opened Options
  import opened Wire
  import opened Messages
  import opened TaskParts

  // ---- Append helpers ----

  method AppendBytesField(b: seq<Byte>, num: nat, v: seq<Byte>) returns (r: seq<Byte>)
    ensures r == b + AppendFields(BytesField(num, v))
  {
    if |v| == 0 {
      return b;
    }
    OneField(Bytes(num, v));
    r := b + AppendTag(num, 2);
    r := r + (AppendVarint(|v|) + v);
  }

  method AppendVarintField(b: seq<Byte>, num: nat, v: nat) returns (r: seq<Byte>)
    ensures r == b + AppendFields(VarintField(num, v))
  {
    if v == 0 {
      return b;
    }
    OneField(Varint(num, v));
    r := b + AppendTag(num, 0);
    r := r + AppendVarint(v);
  }

  method AppendBoolField(b: seq<Byte>, num: nat, v: bool) returns (r: seq<Byte>)
    ensures r == b + AppendFields(BoolField(num, v))
  {
    if !v {
      return b;
    }
    OneField(Varint(num, 1));
    r := b + AppendTag(num, 0);
    r := r + AppendVarint(1);
  }

  lemma OneField(f: Value)
    ensures AppendFields([f]) == AppendField(f)
  {
    assert AppendFields([f][1..]) == [];
  }

  lemma Appended(b: seq<Byte>, fs: seq<Value>, gs: seq<Value>)
    ensures (b + AppendFields(fs)) + AppendFields(gs) == b + AppendFields(fs + gs)
  {
    AppendFieldsAppend(fs, gs);
  }

  lemma AppendedThree(b: seq<Byte>, f: seq<Value>, g: seq<Value>, h: seq<Value>)
    ensures ((b + AppendFields(f)) + AppendFields(g)) + AppendFields(h) == b + AppendFields(f + (g + h))
  {
    hide AppendFields;
    AppendFieldsAppend(g, h);
    Appended(b, f, g + h);
  }

  lemma FromNothing(f: seq<Value>)
    ensures [] + AppendFields(f) == AppendFields(f)
  {
  }

  // ---- Encoders ----

  method MarshalPeer(p: PeerEntry) returns (b: seq<Byte>)
    ensures b == EncodePeer(p)
  {
    hide AppendFields, BytesField, VarintField, ToUint32;
    b := AppendVarintField([], 1, ToUint32(p.nodeId));
    b := AppendBytesField(b, 2, p.addr);
    Appended([], VarintField(1, ToUint32(p.nodeId)), BytesField(2, p.addr));
    FromNothing(PeerFields(p));
  }

  method MarshalShare(s: ShareData) returns (b: seq<Byte>)
    ensures b == EncodeShare(s)
  {
    hide AppendFields, BytesField, VarintField, ToUint32;
    b := AppendVarintField([], 1, ToUint32(s.slot));
    b := AppendBytesField(b, 2, s.value);
    Appended([], VarintField(1, ToUint32(s.slot)), BytesField(2, s.value));
    FromNothing(ShareFields(s));
  }

  method MarshalTriple(t: TripleData) returns (b: seq<Byte>)
    ensures b == EncodeTriple(t)
  {
    hide AppendFields, BytesField;
    b := AppendBytesField([], 1, t.A);
    b := AppendBytesField(b, 2, t.B);
    b := AppendBytesField(b, 3, t.C);
    AppendedThree([], BytesField(1, t.A), BytesField(2, t.B), BytesField(3, t.C));
    FromNothing(TripleFields(t));
  }

  method MarshalMsg(m: Msg) returns (b: seq<Byte>)
    ensures b == EncodeMsg(m)
  {
    hide AppendFields, VarintField, BytesField, ToUint32;
    b := AppendVarintField([], 1, ToUint32(m.roundNum));
    ghost var b1 := b;
    b := AppendVarintField(b, 2, ToUint32(m.senderId));
    b := AppendBytesField(b, 3, m.sessionId);
    b := AppendBytesField(b, 4, m.data);
    ghost var f1, f2 := VarintField(1, ToUint32(m.roundNum)), VarintField(2, ToUint32(m.senderId));
    ghost var f3, f4 := BytesField(3, m.sessionId), BytesField(4, m.data);
    AppendedThree(b1, f2, f3, f4);
    Appended([], f1, f2 + (f3 + f4));
    FromNothing(MsgFields(m));
  }

  method MarshalTask(t: Task) returns (b: seq<Byte>)
    ensures b == EncodeTask(t)
  {
    hide AppendFields, NameFields, SizeFields, SubFields;
    b := MarshalNames(t);
    b := MarshalSizes(b, t);
    b := MarshalSubs(b, t);
    FromNothing(NameFields(t));
    AppendedThree([], NameFields(t), SizeFields(t), SubFields(t));
    FromNothing(TaskFields(t));
  }

  method MarshalNames(t: Task) returns (b: seq<Byte>)
    ensures b == AppendFields(NameFields(t))
  {
    hide AppendFields, BytesField, VarintField, ToUint32;
    b := AppendBytesField([], 1, t.sessionId);
    b := AppendVarintField(b, 2, ToUint32(t.nodeId));
    b := AppendBytesField(b, 3, t.op);
    AppendedThree([], BytesField(1, t.sessionId), VarintField(2, ToUint32(t.nodeId)), BytesField(3, t.op));
    FromNothing(NameFields(t));
  }

  method MarshalSizes(b0: seq<Byte>, t: Task) returns (b: seq<Byte>)
    ensures b == b0 + AppendFields(SizeFields(t))
  {
    hide AppendFields, BoolField, VarintField, ToUint32;
    b := AppendVarintField(b0, 4, ToUint32(t.partyCount));
    b := AppendVarintField(b, 5, ToUint32(t.bitLen));
    b := AppendBoolField(b, 6, t.ready);
    AppendedThree(b0, VarintField(4, ToUint32(t.partyCount)), VarintField(5, ToUint32(t.bitLen)),
                  BoolField(6, t.ready));
  }

  method MarshalSubs(b0: seq<Byte>, t: Task) returns (b: seq<Byte>)
    ensures b == b0 + AppendFields(SubFields(t))
  {
    hide AppendFields, PeersFields, SharesFields, TriplesFields;
    b := MarshalPeers(b0, t.peers);
    b := MarshalShares(b, t.shares);
    b := MarshalTriples(b, t.triples);
    AppendedThree(b0, PeersFields(t.peers), SharesFields(t.shares), TriplesFields(t.triples));
  }

  method MarshalPeers(b0: seq<Byte>, ps: seq<PeerEntry>) returns (b: seq<Byte>)
    ensures b == b0 + AppendFields(PeersFields(ps))
  {
    b := b0;
    for i := 0 to |ps|
      invariant b + AppendFields(PeersFields(ps[i..])) == b0 + AppendFields(PeersFields(ps))
    {
      hide BytesField, EncodePeer;
      var sub := MarshalPeer(ps[i]);
      assert ps[i..][1..] == ps[i + 1..];
      Appended(b, BytesField(7, sub), PeersFields(ps[i + 1..]));
      b := AppendBytesField(b, 7, sub);
    }
  }

  method MarshalShares(b0: seq<Byte>, ss: seq<ShareData>) returns (b: seq<Byte>)
    ensures b == b0 + AppendFields(SharesFields(ss))
  {
    b := b0;
    for i := 0 to |ss|
      invariant b + AppendFields(SharesFields(ss[i..])) == b0 + AppendFields(SharesFields(ss))
    {
      hide BytesField, EncodeShare;
      var sub := MarshalShare(ss[i]);
      assert ss[i..][1..] == ss[i + 1..];
      Appended(b, BytesField(8, sub), SharesFields(ss[i + 1..]));
      b := AppendBytesField(b, 8, sub);
    }
  }

  method MarshalTriples(b0: seq<Byte>, ts: seq<TripleData>) returns (b: seq<Byte>)
    ensures b == b0 + AppendFields(TriplesFields(ts))
  {
    b := b0;
    for i := 0 to |ts|
      invariant b + AppendFields(TriplesFields(ts[i..])) == b0 + AppendFields(TriplesFields(ts))
    {
      hide BytesField, EncodeTriple;
      var sub := MarshalTriple(ts[i]);
      assert ts[i..][1..] == ts[i + 1..];
      Appended(b, BytesField(9, sub), TriplesFields(ts[i + 1..]));
      b := AppendBytesField(b, 9, sub);
    }
  }

  // ---- Decoders ----

  method UnmarshalPeer(b: seq<Byte>) returns (r: Option<PeerEntry>)
    ensures r == DecodePeer(b)
  {
    hide ConsumeTag, ConsumeVarint, ConsumeBytes, SkipValue, ToInt32;
    var m, rest := EMPTY_PEER, b;
    while |rest| > 0
      invariant DecodeFrom(PeerKind, StorePeer, m, rest) == DecodePeer(b)
      decreases |rest|
    {
      var tag := ConsumeTag(rest);
      if tag.None? {
        return None;
      }
      var body := rest[tag.value.size..];
      if tag.value.value.num == 1 {
        var v := ConsumeVarint(body);
        if v.None? {
          return None;
        }
        m := m.(nodeId := ToInt32(v.value.value));
        rest := rest[tag.value.size + v.value.size..];
      } else if tag.value.value.num == 2 {
        var v := ConsumeBytes(body);
        if v.None? {
          return None;
        }
        m := m.(addr := v.value.value);
        rest := rest[tag.value.size + v.value.size..];
      } else {
        var n := SkipValue(tag.value.value.wireType, body);
        if n.None? {
          return None;
        }
        rest := rest[tag.value.size + n.value..];
      }
    }
    r := Some(m);
  }

  method UnmarshalShare(b: seq<Byte>) returns (r: Option<ShareData>)
    ensures r == DecodeShare(b)
  {
    hide ConsumeTag, ConsumeVarint, ConsumeBytes, SkipValue, ToInt32;
    var m, rest := EMPTY_SHARE, b;
    while |rest| > 0
      invariant DecodeFrom(ShareKind, StoreShare, m, rest) == DecodeShare(b)
      decreases |rest|
    {
      var tag := ConsumeTag(rest);
      if tag.None? {
        return None;
      }
      var body := rest[tag.value.size..];
      if tag.value.value.num == 1 {
        var v := ConsumeVarint(body);
        if v.None? {
          return None;
        }
        m := m.(slot := ToInt32(v.value.value));
        rest := rest[tag.value.size + v.value.size..];
      } else if tag.value.value.num == 2 {
        var v := ConsumeBytes(body);
        if v.None? {
          return None;
        }
        m := m.(value := v.value.value);
        rest := rest[tag.value.size + v.value.size..];
      } else {
        var n := SkipValue(tag.value.value.wireType, body);
        if n.None? {
          return None;
        }
        rest := rest[tag.value.size + n.value..];
      }
    }
    r := Some(m);
  }

  method UnmarshalTriple(b: seq<Byte>) returns (r: Option<TripleData>)
    ensures r == DecodeTriple(b)
  {
    hide ConsumeTag, ConsumeVarint, ConsumeBytes, SkipValue;
    var m, rest := EMPTY_TRIPLE, b;
    while |rest| > 0
      invariant DecodeFrom(TripleKind, StoreTriple, m, rest) == DecodeTriple(b)
      decreases |rest|
    {
      var tag := ConsumeTag(rest);
      if tag.None? {
        return None;
      }
      var num, body := tag.value.value.num, rest[tag.value.size..];
      if num == 1 || num == 2 || num == 3 {
        var v := ConsumeBytes(body);
        if v.None? {
          return None;
        }
        var bs := v.value.value;
        m := if num == 1 then m.(A := bs) else if num == 2 then m.(B := bs) else m.(C := bs);
        rest := rest[tag.value.size + v.value.size..];
      } else {
        var n := SkipValue(tag.value.value.wireType, body);
        if n.None? {
          return None;
        }
        rest := rest[tag.value.size + n.value..];
      }
    }
    r := Some(m);
  }

  method UnmarshalMsg(b: seq<Byte>) returns (r: Option<Msg>)
    ensures r == DecodeMsg(b)
  {
    hide ConsumeTag, ConsumeVarint, ConsumeBytes, SkipValue, ToInt32;
    var m, rest := EMPTY_MSG, b;
    while |rest| > 0
      invariant DecodeFrom(MsgKind, StoreMsg, m, rest) == DecodeMsg(b)
      decreases |rest|
    {
      var tag := ConsumeTag(rest);
      if tag.None? {
        return None;
      }
      var num, body := tag.value.value.num, rest[tag.value.size..];
      if num == 1 || num == 2 {
        var v := ConsumeVarint(body);
        if v.None? {
          return None;
        }
        m := if num == 1 then m.(roundNum := ToInt32(v.value.value)) else m.(senderId := ToInt32(v.value.value));
        rest := rest[tag.value.size + v.value.size..];
      } else if num == 3 || num == 4 {
        var v := ConsumeBytes(body);
        if v.None? {
          return None;
        }
        m := if num == 3 then m.(sessionId := v.value.value) else m.(data := v.value.value);
        rest := rest[tag.value.size + v.value.size..];
      } else {
        var n := SkipValue(tag.value.value.wireType, body);
        if n.None? {
          return None;
        }
        rest := rest[tag.value.size + n.value..];
      }
    }
    r := Some(m);
  }

  /** Stores one length-delimited field of a task; a sub-message that does not decode is an error. */
  method StoreTaskBytes(m: Task, num: nat, bs: seq<Byte>) returns (r: Option<Task>)
    requires TaskKind(num).BytesKind?
    ensures r == StoreTask(m, Bytes(num, bs))
  {
    if num == 1 {
      r := Some(m.(sessionId := bs));
    } else if num == 3 {
      r := Some(m.(op := bs));
    } else if num == 7 {
      var p := UnmarshalPeer(bs);
      r := if p.None? then None else Some(m.(peers := m.peers + [p.value]));
    } else if num == 8 {
      var s := UnmarshalShare(bs);
      r := if s.None? then None else Some(m.(shares := m.shares + [s.value]));
    } else {
      var t := UnmarshalTriple(bs);
      r := if t.None? then None else Some(m.(triples := m.triples + [t.value]));
    }
  }

  method StoreTaskVarint(m: Task, num: nat, v: nat) returns (r: Task)
    requires TaskKind(num).VarintKind?
    ensures StoreTask(m, Varint(num, v)) == Some(r)
  {
    if num == 2 {
      r := m.(nodeId := ToInt32(v));
    } else if num == 4 {
      r := m.(partyCount := ToInt32(v));
    } else if num == 5 {
      r := m.(bitLen := ToInt32(v));
    } else {
      r := m.(ready := v != 0);
    }
  }

  method UnmarshalTask(b: seq<Byte>) returns (r: Option<Task>)
    ensures r == DecodeTask(b)
  {
    hide ConsumeTag, ConsumeVarint, ConsumeBytes, SkipValue;
    var m, rest := EMPTY_TASK, b;
    while |rest| > 0
      invariant DecodeFrom(TaskKind, StoreTask, m, rest) == DecodeTask(b)
      decreases |rest|
    {
      var tag := ConsumeTag(rest);
      if tag.None? {
        return None;
      }
      var num, body := tag.value.value.num, rest[tag.value.size..];
      match TaskKind(num) {
        case VarintKind =>
          var v := ConsumeVarint(body);
          if v.None? {
            return None;
          }
          m := StoreTaskVarint(m, num, v.value.value);
          rest := rest[tag.value.size + v.value.size..];
        case BytesKind =>
          var v := ConsumeBytes(body);
          if v.None? {
            return None;
          }
          var m' := StoreTaskBytes(m, num, v.value.value);
          if m'.None? {
            return None;
          }
          m := m'.value;
          rest := rest[tag.value.size + v.value.size..];
        case UnknownKind =>
          var n := SkipValue(tag.value.value.wireType, body);
          if n.None? {
            return None;
          }
          rest := rest[tag.value.size + n.value..];
      }
    }
    r := Some(m);
  }
}
