/** Base58 text for byte strings: in-place radix conversion that touches only the used end of its buffer. */
module Base58 {
  import opened Arithmetic
  import opened Field
  import opened Radix

  /** Digits, capitals and small letters in order, without 0, O, I and l. */
  const ALPHABET: string := "123456789" + "ABCDEFGH" + "JKLMN" + "PQRSTUVWXYZ" + "abcdefghijk" + "mnopqrstuvwxyz"

  // ---- Specification: leading zeros, then the shortest digit string of the value ----

  function LeadingZeros(ds: seq<int>): (z: nat)
    ensures z <= |ds|
  {
    if ds == [] || ds[0] != 0 then 0 else 1 + LeadingZeros(ds[1..])
  }

  function Zeros(n: nat): (zs: seq<int>)
    ensures |zs| == n
  {
    seq(n, _ => 0)
  }

  /** The same number in another base, with one leading zero digit for each one of the source. */
  function Convert(ds: seq<int>, from: Base, to: Base): (r: seq<int>)
    requires IsDigits(ds, from)
    ensures IsDigits(r, to)
  {
    ValueNonNegative(ds, from);
    Zeros(LeadingZeros(ds)) + Digits(Value(ds, from), to)
  }

  lemma {:induction false} LeadingZerosSplit(ds: seq<int>)
    ensures ds == Zeros(LeadingZeros(ds)) + ds[LeadingZeros(ds)..]
    ensures LeadingZeros(ds) < |ds| ==> ds[LeadingZeros(ds)] != 0
  {
    if ds != [] && ds[0] == 0 {
      LeadingZerosSplit(ds[1..]);
      var z := LeadingZeros(ds);
      assert z == 1 + LeadingZeros(ds[1..]) && ds[1..][z - 1..] == ds[z..];
      hide LeadingZeros;
      assert ds == [0] + ds[1..];
      assert Zeros(z) == [0] + Zeros(z - 1);
    }
  }

  lemma {:induction false} LeadingZerosOf(z: nat, ds: seq<int>)
    requires ds != [] ==> ds[0] != 0
    ensures LeadingZeros(Zeros(z) + ds) == z
  {
    if z > 0 {
      assert (Zeros(z) + ds)[1..] == Zeros(z - 1) + ds;
      LeadingZerosOf(z - 1, ds);
    }
  }

  /** Converting to another base and back is the identity on every digit string. */
  lemma ConvertBack(ds: seq<int>, a: Base, b: Base)
    requires IsDigits(ds, a)
    ensures Convert(Convert(ds, a, b), b, a) == ds
  {
    var z := LeadingZeros(ds);
    LeadingZerosSplit(ds);
    ValueNonNegative(ds, a);
    var v := Value(ds, a);
    LeadingZerosOf(z, Digits(v, b));
    ValueLeadingZeros(z, Digits(v, b), b);
    ValueOfDigits(v, b);
    ValueLeadingZeros(z, ds[z..], a);
    DigitsOfValue(ds[z..], a);
  }

  // ---- Characters ----

  function DigitsToText(ds: seq<int>): (s: string)
    requires IsDigits(ds, 58)
    ensures |s| == |ds|
  {
    seq(|ds|, i requires 0 <= i < |ds| => ALPHABET[ds[i]])
  }

  /** The alphabet's characters by their codes. */
  function CharCode(d: nat): (c: nat)
    requires d < 58
    ensures c < 128
  {
    if d < 9 then '1' as int + d
    else if d < 17 then 'A' as int + (d - 9)
    else if d < 22 then 'J' as int + (d - 17)
    else if d < 33 then 'P' as int + (d - 22)
    else if d < 44 then 'a' as int + (d - 33)
    else 'm' as int + (d - 44)
  }

  lemma AlphabetCode(d: nat)
    requires d < 58
    ensures |ALPHABET| == 58 && ALPHABET[d] as int == CharCode(d)
  {
    if d < 9 {
      assert ALPHABET[d] == "123456789"[d];
    } else if d < 17 {
      assert ALPHABET[d] == "ABCDEFGH"[d - 9];
    } else if d < 22 {
      assert ALPHABET[d] == "JKLMN"[d - 17];
    } else if d < 33 {
      assert ALPHABET[d] == "PQRSTUVWXYZ"[d - 22];
    } else if d < 44 {
      assert ALPHABET[d] == "abcdefghijk"[d - 33];
    } else {
      assert ALPHABET[d] == "mnopqrstuvwxyz"[d - 44];
    }
  }

  predicate InAlphabet(c: char) {
    exists d: nat :: d < 58 && ALPHABET[d] == c
  }

  /** What the table maps a character code to after its first n entries are filled in. */
  function TableDigit(n: nat, code: nat): int
    requires n <= 58
  {
    if n == 0 then -1
    else if CharCode(n - 1) == code then n - 1
    else TableDigit(n - 1, code)
  }

  lemma {:induction false} TableDigitFinds(n: nat, code: nat)
    requires n <= 58
    ensures -1 <= TableDigit(n, code) < n
    ensures 0 <= TableDigit(n, code) ==> CharCode(TableDigit(n, code)) == code
    ensures TableDigit(n, code) == -1 ==> forall d: nat :: d < n ==> CharCode(d) != code
  {
    if n > 0 {
      TableDigitFinds(n - 1, code);
    }
  }

  /** Fills the table that maps character codes below 128 to digits, and everything else to -1. */
  method InitTable() returns (table: array<int>)
    ensures fresh(table) && table.Length == 128
    ensures forall code: nat :: code < 128 ==> table[code] == TableDigit(58, code)
  {
    table := new int[128](_ => -1);
    for d := 0 to 58
      invariant forall code: nat :: code < 128 ==> table[code] == TableDigit(d, code)
    {
      AlphabetCode(d);
      table[ALPHABET[d] as int] := d;
    }
  }

  /** The digit of a character, or -1 outside the alphabet. */
  function DigitOf(c: char): int {
    if c as int >= 128 then -1 else TableDigit(58, c as int)
  }

  lemma DigitOfInverts(c: char)
    ensures DigitOf(c) == -1 <==> !InAlphabet(c)
    ensures DigitOf(c) != -1 ==> 0 <= DigitOf(c) < 58 && ALPHABET[DigitOf(c)] == c
  {
    hide TableDigit;
    TableDigitFinds(58, c as int);
    if DigitOf(c) != -1 {
      AlphabetCode(DigitOf(c));
    }
    if d: nat :| d < 58 && ALPHABET[d] == c {
      AlphabetCode(d);
    }
  }

  lemma CharCodesDiffer(d: nat, e: nat)
    requires d < e < 58
    ensures CharCode(d) != CharCode(e)
  {
  }

  lemma DigitOfAlphabet(d: nat)
    requires d < 58
    ensures DigitOf(ALPHABET[d]) == d && InAlphabet(ALPHABET[d])
  {
    hide TableDigit;
    AlphabetCode(d);
    TableDigitFinds(58, CharCode(d));
    var e := TableDigit(58, CharCode(d));
    if 0 <= e < d {
      CharCodesDiffer(e, d);
    } else if d < e {
      CharCodesDiffer(d, e);
    }
  }

  predicate IsText(s: string) {
    forall i :: 0 <= i < |s| ==> InAlphabet(s[i])
  }

  lemma TextDigitsInRange(s: string)
    requires IsText(s)
    ensures forall i :: 0 <= i < |s| ==> 0 <= DigitOf(s[i]) < 58
  {
    forall i | 0 <= i < |s|
      ensures 0 <= DigitOf(s[i]) < 58
    {
      DigitOfInverts(s[i]);
    }
  }

  function TextToDigits(s: string): (ds: seq<int>)
    requires IsText(s)
    ensures |ds| == |s| && IsDigits(ds, 58)
  {
    TextDigitsInRange(s);
    seq(|s|, i requires 0 <= i < |s| => DigitOf(s[i]))
  }

  // ---- What encoding and decoding give ----

  function EncodeSpec(b: seq<Byte>): string {
    DigitsToText(Convert(b, 256, 58))
  }

  datatype DecodeResult = Decoded(bytes: seq<Byte>) | InvalidChar(c: char)

  function DecodeSpec(s: string): (bytes: seq<Byte>)
    requires IsText(s)
  {
    var ds := Convert(TextToDigits(s), 58, 256);
    seq(|ds|, i requires 0 <= i < |ds| => ds[i] as Byte)
  }

  /** Every byte string survives encoding and decoding, leading zeros included. */
  lemma DecodeEncode(b: seq<Byte>)
    ensures IsText(EncodeSpec(b)) && DecodeSpec(EncodeSpec(b)) == b
  {
    var ds: seq<int> := Convert(b, 256, 58);
    var s := EncodeSpec(b);
    forall i | 0 <= i < |s|
      ensures InAlphabet(s[i]) && DigitOf(s[i]) == ds[i]
    {
      DigitOfAlphabet(ds[i]);
    }
    assert TextToDigits(s) == ds;
    ConvertBack(b, 256, 58);
  }

  /**
   * What an encoding stands for: one character 1 for every leading zero byte, no further leading 1, and
   * behind it the base-58 number, most significant digit first, that the bytes are in base 256.
   */
  lemma EncodeMeans(b: seq<Byte>)
    ensures
      var s := EncodeSpec(b);
      && IsText(s)
      && Value(TextToDigits(s), 58) == Value(b, 256)
      && var z := LeadingZeros(b);
         && z <= |s| && (forall i :: 0 <= i < z ==> b[i] == 0 && s[i] == '1')
         && (z < |b| ==> b[z] != 0) && (z < |s| ==> s[z] != '1')
  {
    DecodeEncode(b);
    DigitsOfEncoding(b);
    ConvertMeans(b);
    OnesAreZeros(b);
    LeadingZerosSplit(b);
    var z := LeadingZeros(b);
    hide Convert, LeadingZeros, Value, IsText, TextToDigits, DecodeSpec, EncodeSpec;
    forall i | 0 <= i < z
      ensures b[i] == 0
    {
      assert b[i] == Zeros(z)[i];
    }
  }

  lemma OnesAreZeros(b: seq<Byte>)
    ensures |EncodeSpec(b)| == |Convert(b, 256, 58)|
    ensures forall i :: 0 <= i < |EncodeSpec(b)| ==> (EncodeSpec(b)[i] == '1' <==> Convert(b, 256, 58)[i] == 0)
  {
    var ds := Convert(b, 256, 58);
    hide Convert;
    forall i | 0 <= i < |ds|
      ensures EncodeSpec(b)[i] == '1' <==> ds[i] == 0
    {
      OneIsZero(ds[i]);
    }
  }

  /** The digits that an encoding's characters stand for. */
  lemma DigitsOfEncoding(b: seq<Byte>)
    requires IsText(EncodeSpec(b))
    ensures TextToDigits(EncodeSpec(b)) == Convert(b, 256, 58)
  {
    var ds := Convert(b, 256, 58);
    hide Convert;
    forall i | 0 <= i < |ds|
      ensures DigitOf(EncodeSpec(b)[i]) == ds[i]
    {
      DigitOfAlphabet(ds[i]);
    }
    assert TextToDigits(EncodeSpec(b)) == ds;
  }

  /** The converted digits: the value stays, and so does the number of leading zeros. */
  lemma ConvertMeans(b: seq<Byte>)
    ensures
      var ds, z := Convert(b, 256, 58), LeadingZeros(b);
      && Value(ds, 58) == Value(b, 256)
      && z <= |ds| && (forall i :: 0 <= i < z ==> ds[i] == 0) && (z < |ds| ==> ds[z] != 0)
  {
    var z := LeadingZeros(b);
    ValueNonNegative(b, 256);
    var more := Digits(Value(b, 256), 58);
    ValueOfDigits(Value(b, 256), 58);
    ValueLeadingZeros(z, more, 58);
    hide Value, Digits, LeadingZeros;
    assert Convert(b, 256, 58) == seq(z, _ => 0) + more;
  }

  lemma OneIsZero(d: nat)
    requires d < 58
    ensures |ALPHABET| == 58 && (ALPHABET[d] == '1' <==> d == 0)
  {
    AlphabetCode(d);
    AlphabetCode(0);
  }

  /** A test vector of the draft. */
  lemma DraftVector()
    ensures EncodeSpec([0, 0, 0x28, 0x7f, 0xb4, 0xcd]) == "11233QC4"
  {
    var b: seq<Byte> := [0, 0, 0x28, 0x7f, 0xb4, 0xcd];
    DraftValue();
    DraftDigits();
    assert b[1..] == [0, 0x28, 0x7f, 0xb4, 0xcd] && b[1..][1..] == [0x28, 0x7f, 0xb4, 0xcd];
    assert LeadingZeros(b) == 2;
    var ds := Convert(b, 256, 58);
    assert ds == Zeros(2) + [1, 2, 2, 23, 11, 3];
    hide Convert;
    assert EncodeSpec(b) == DigitsToText(ds);
    AlphabetCode(0);
    AlphabetCode(1);
    AlphabetCode(2);
    AlphabetCode(3);
    AlphabetCode(11);
    AlphabetCode(23);
  }

  lemma DraftValue()
    ensures Value([0, 0, 0x28, 0x7f, 0xb4, 0xcd], 256) == 679457997
  {
    var b := [0, 0, 0x28, 0x7f, 0xb4, 0xcd];
    ValueSnoc(b[..5], 0xcd, 256);
    ValueSnoc(b[..4], 0xb4, 256);
    ValueSnoc(b[..3], 0x7f, 256);
    ValueSnoc(b[..2], 0x28, 256);
    ValueSnoc(b[..1], 0, 256);
    ValueSnoc([], 0, 256);
    EmptyValue(256);
    hide Value;
    assert b[..1] == [] + [0] && b[..2] == b[..1] + [0] && b[..3] == b[..2] + [0x28];
    assert b[..4] == b[..3] + [0x7f] && b[..5] == b[..4] + [0xb4] && b == b[..5] + [0xcd];
  }

  lemma DraftDigits()
    ensures Digits(679457997, 58) == [1, 2, 2, 23, 11, 3]
  {
    assert Digits(1, 58) == Digits(0, 58) + [1];
    assert Digits(60, 58) == Digits(1, 58) + [2];
    assert Digits(3482, 58) == Digits(60, 58) + [2];
    assert Digits(201979, 58) == Digits(3482, 58) + [23];
    assert Digits(11714793, 58) == Digits(201979, 58) + [11];
    assert Digits(679457997, 58) == Digits(11714793, 58) + [3];
  }

  /** Every text over the alphabet survives decoding and encoding. */
  lemma EncodeDecode(s: string)
    requires IsText(s)
    ensures EncodeSpec(DecodeSpec(s)) == s
  {
    var ds := TextToDigits(s);
    ConvertBack(ds, 58, 256);
    assert DecodeSpec(s) == Convert(ds, 58, 256);
    forall i | 0 <= i < |s|
      ensures ALPHABET[ds[i]] == s[i]
    {
      DigitOfInverts(s[i]);
    }
  }

  // ---- The buffers are large enough ----

  lemma {:induction false} PowMonotone(a: nat, b: nat, k: nat)
    requires 1 <= a <= b
    ensures 1 <= Pow(a, k) <= Pow(b, k)
  {
    if k > 0 {
      PowMonotone(a, b, k - 1);
      MulAtLeast(Pow(b, k - 1), Pow(a, k - 1), a);
      MulAtLeast(b, a, Pow(b, k - 1));
      PowPositive(a, k);
    }
  }

  lemma {:induction false} PowPow(a: nat, m: nat, k: nat)
    ensures Pow(Pow(a, m), k) == Pow(a, m * k)
  {
    if k > 0 {
      PowPow(a, m, k - 1);
      assert m * (k - 1) + m == m * k;
      PowAdd(a, m * (k - 1), m);
    } else {
      assert m * k == 0;
    }
  }

  lemma PowIncreasing(a: nat, m: nat, n: nat)
    requires 1 <= a && m <= n
    ensures Pow(a, m) <= Pow(a, n)
  {
    hide Pow;
    PowAdd(a, m, n - m);
    PowPositive(a, n - m);
    PowPositive(a, m);
    MulAtLeast(Pow(a, n - m), 1, Pow(a, m));
  }

  /**
   * When a^q <= b^p and the buffer has more than n*p/q places, n digits in base a always fit
   * into it in base b.
   */
  lemma DigitsFit(a: nat, b: nat, p: nat, q: nat, n: nat, size: nat)
    requires 1 <= a && 2 <= b && 0 < q && Pow(a, q) <= Pow(b, p) && n * p < size * q
    ensures Pow(a, n) < Pow(b, size)
  {
    hide Pow;
    if Pow(b, size) <= Pow(a, n) {
      PowPositive(b, size);
      PowPositive(a, q);
      PowMonotone(Pow(b, size), Pow(a, n), q);
      PowMonotone(Pow(a, q), Pow(b, p), n);
      PowPow(b, size, q);
      PowPow(b, p, n);
      PowSwap(a, n, q);
      MulCommutes(p, n);
      MulAtLeast(n, 0, p);
      PowStrict(b, n * p, size * q);
    }
  }

  lemma PowSwap(a: nat, n: nat, q: nat)
    ensures Pow(Pow(a, n), q) == Pow(Pow(a, q), n)
  {
    hide Pow;
    PowPow(a, n, q);
    PowPow(a, q, n);
    MulCommutes(n, q);
  }

  lemma MulCommutes(x: int, y: int)
    ensures x * y == y * x
  {
  }

  lemma PowStrict(b: nat, m: nat, n: nat)
    requires 2 <= b && m < n
    ensures Pow(b, m) < Pow(b, n)
  {
    PowIncreasing(b, m + 1, n);
    PowPositive(b, m);
    MulAtLeast(b, 2, Pow(b, m));
  }

  lemma EncodeFits(n: nat)
    ensures Pow(256, n) < Pow(58, n * 138 / 100 + 1)
  {
    assert Pow(256, 8) <= Pow(58, 11) by {
      assert Pow(256, 4) == 0x1_0000_0000;
      PowAdd(256, 4, 4);
      assert Pow(58, 4) == 11316496;
      PowAdd(58, 4, 4);
      PowAdd(58, 8, 3);
      assert Pow(58, 3) == 195112;
    }
    DigitsFit(256, 58, 11, 8, n, n * 138 / 100 + 1);
  }

  lemma DecodeFits(n: nat)
    ensures Pow(58, n) < Pow(256, n * 733 / 1000 + 1)
  {
    assert Pow(58, 71) <= Pow(256, 52) by {
      Pow58To71();
    }
    DigitsFit(58, 256, 52, 71, n, n * 733 / 1000 + 1);
  }

  lemma SmallPowers()
    ensures Pow(58, 3) == 195112 && Pow(58, 4) == 11316496 && Pow(256, 4) == 0x1_0000_0000
  {
  }

  lemma Pow58To71()
    ensures Pow(58, 71) <= Pow(256, 52)
  {
    hide Pow;
    SmallPowers();
    PowAdd(58, 4, 4);
    assert Pow(58, 8) == 0x7479027ea100;
    PowAdd(58, 8, 8);
    assert Pow(58, 16) == 0x34fde3761da26b26e1410000;
    PowAdd(58, 16, 16);
    assert Pow(58, 32) == 0xaf820335d9b3d9cf58b911d87035677fb7f528100000000;
    PowAdd(58, 32, 32);
    assert Pow(58, 64)
        == 0x7853026ae25f4ce0c69893e6f1f86f67aef4db69563516064adeb967a9d66f4fe64b09ec94e5010000000000000000;
    PowAdd(58, 64, 4);
    assert Pow(58, 68)
        == 0x51291d3da279b033ee22c4e4a6e2dedc799439d259d1820f6deea1c2dcc053504eae09c5598944bbfd100000000000000000;
    PowAdd(58, 68, 3);
    PowAdd(256, 4, 4);
    assert Pow(256, 8) == 0x10000000000000000;
    PowAdd(256, 8, 8);
    assert Pow(256, 16) == 0x100000000000000000000000000000000;
    PowAdd(256, 16, 16);
    assert Pow(256, 32) == 0x10000000000000000000000000000000000000000000000000000000000000000;
    PowAdd(256, 32, 16);
    PowAdd(256, 48, 4);
  }

  // ---- One digit pushed into the buffer ----

  predicate ZeroUpTo(buf: seq<int>, high: int) {
    forall k :: 0 <= k < |buf| && k <= high ==> buf[k] == 0
  }

  lemma {:induction false} ZeroValue(ds: seq<int>, b: Base)
    requires forall k :: 0 <= k < |ds| ==> ds[k] == 0
    ensures Value(ds, b) == 0
  {
    if ds != [] {
      ZeroValue(ds[..|ds| - 1], b);
    }
  }

  /** The value still to be written plus the value already written, while working leftwards at place i. */
  ghost function Pending(buf: seq<int>, i: int, carry: int, from: Base, to: Base): int
    requires -1 <= i < |buf|
  {
    (Value(buf[..i + 1], to) * from + carry) * Pow(to, |buf| - 1 - i) + Value(buf[i + 1..], to)
  }

  lemma PushStep(buf: seq<int>, i: nat, carry: nat, from: Base, to: Base)
    requires i < |buf| && 0 <= buf[i]
    ensures
      var c := carry + buf[i] * from;
      Pending(buf[i := c % to], i - 1, c / to, from, to) == Pending(buf, i, carry, from, to)
  {
    var c := carry + buf[i] * from;
    var d, q := c % to, c / to;
    var buf' := buf[i := d];
    var W, P, R := Value(buf[..i], to), Pow(to, |buf| - 1 - i), Value(buf[i + 1..], to);
    assert buf[..i + 1] == buf[..i] + [buf[i]];
    ValueSnoc(buf[..i], buf[i], to);
    assert buf'[..i] == buf[..i];
    assert buf'[i..] == [d] + buf[i + 1..];
    ValueAppend([d], buf[i + 1..], to);
    assert Value([d], to) == d by {
      assert [d] == [] + [d];
      ValueSnoc([], d, to);
    }
    assert c == q * to + d;
    calc {
      Pending(buf', i - 1, q, from, to);
      (W * from + q) * (P * to) + (d * P + R);
      { PushAlgebra(W, from, q, P, to, d, buf[i], carry); }
      ((W * to + buf[i]) * from + carry) * P + R;
      Pending(buf, i, carry, from, to);
    }
  }

  lemma PushAlgebra(W: int, from: int, q: int, P: int, to: int, d: int, b: int, carry: int)
    requires carry + b * from == q * to + d
    ensures (W * from + q) * (P * to) + d * P == ((W * to + b) * from + carry) * P
  {
    assert (W * from + q) * (P * to) == ((W * from + q) * to) * P;
    assert (W * from + q) * to + d == (W * to + b) * from + carry by {
      assert (W * from + q) * to == W * from * to + q * to;
      assert (W * to + b) * from == W * to * from + b * from;
      assert W * from * to == W * to * from;
    }
    MulDistribute((W * from + q) * to, d, P);
  }

  /**
   * Multiplies the number in the buffer by the source base and adds one digit. Places up to high hold
   * zeros and are only touched when the carry reaches them. The carry never leaves the source base and
   * is used up before the loop could step off the buffer.
   */
  method Push(buf: array<int>, high: int, x: int, from: Base, to: Base) returns (high': int)
    requires -1 <= high < buf.Length && 0 <= x < from
    requires IsDigits(buf[..], to) && ZeroUpTo(buf[..], high)
    requires Value(buf[..], to) * from + x < Pow(to, buf.Length)
    modifies buf
    ensures -1 <= high' <= high
    ensures IsDigits(buf[..], to) && ZeroUpTo(buf[..], high')
    ensures Value(buf[..], to) == old(Value(buf[..], to)) * from + x
  {
    hide Value, Pow, Pending;
    var carry := x;
    var i := buf.Length - 1;
    ghost var total := Value(buf[..], to) * from + x;
    PendingStart(buf[..], x, from, to);
    if i == -1 {
      NothingPending(buf[..], carry, from, to);
    }
    while i > high || carry != 0
      invariant -1 <= i < buf.Length && 0 <= carry < from
      invariant IsDigits(buf[..], to)
      invariant forall k :: 0 <= k <= i ==> buf[k] == old(buf[k])
      invariant Pending(buf[..], i, carry, from, to) == total
      invariant i == -1 ==> carry == 0
      decreases i
    {
      CarryInRange(carry, buf[i], from, to);
      PushStep(buf[..], i, carry, from, to);
      ghost var before := buf[..];
      carry := carry + buf[i] * from;
      buf[i] := carry % to;
      assert buf[..] == before[i := carry % to];
      carry := carry / to;
      i := i - 1;
      if i == -1 {
        NothingPending(buf[..], carry, from, to);
      }
    }
    high' := i;
    PendingDone(buf[..], i, from, to);
  }

  lemma PendingStart(buf: seq<int>, x: int, from: Base, to: Base)
    ensures Pending(buf, |buf| - 1, x, from, to) == Value(buf, to) * from + x
  {
    assert buf[..|buf| - 1 + 1] == buf;
    assert buf[|buf|..] == [];
  }

  /** The carry stays below the source base, so that it also fits its 32-bit variable. */
  lemma CarryInRange(carry: int, digit: int, from: Base, to: Base)
    requires 0 <= carry < from && 0 <= digit < to
    ensures 0 <= (carry + digit * from) / to < from
    ensures 0 <= (carry + digit * from) % to < to
    ensures carry + digit * from < from * to
  {
    var c := carry + digit * from;
    MulAtLeast(to - 1, digit, from);
    MulDistribute(to, 1, from);
    MulAtLeast(digit, 0, from);
    QuotientBelow(c, to, from);
  }

  lemma QuotientBelow(c: nat, to: Base, from: nat)
    requires c < from * to
    ensures 0 <= c / to < from
  {
    var q := c / to;
    assert c == q * to + c % to;
    if q >= from {
      MulAtLeast(q, from, to);
    } else if q < 0 {
      MulAtLeast(-1, q, to);
    }
  }

  lemma NothingPending(buf: seq<int>, carry: nat, from: Base, to: Base)
    requires IsDigits(buf, to) && Pending(buf, -1, carry, from, to) < Pow(to, |buf|)
    ensures carry == 0
  {
    assert buf[..0] == [] && buf[0..] == buf;
    ValueBounded(buf, to);
    if carry > 0 {
      MulAtLeast(carry, 1, Pow(to, |buf|));
    }
  }

  lemma PendingDone(buf: seq<int>, i: int, from: Base, to: Base)
    requires -1 <= i < |buf| && ZeroUpTo(buf, i)
    ensures Pending(buf, i, 0, from, to) == Value(buf, to)
  {
    ZeroValue(buf[..i + 1], to);
    assert buf == Zeros(i + 1) + buf[i + 1..];
    ValueLeadingZeros(i + 1, buf[i + 1..], to);
    assert seq(i + 1, _ => 0) == Zeros(i + 1);
  }

  /** The digits of the buffer's value: its places from the first one that is not zero. */
  method TrimLeft(buf: array<int>, b: Base) returns (j: nat)
    requires IsDigits(buf[..], b)
    ensures j <= buf.Length && 0 <= Value(buf[..], b) && buf[j..] == Digits(Value(buf[..], b), b)
  {
    j := 0;
    while j < buf.Length && buf[j] == 0
      invariant j <= buf.Length
      invariant forall k :: 0 <= k < j ==> buf[k] == 0
    {
      j := j + 1;
    }
    assert buf[..] == Zeros(j) + buf[j..];
    ValueLeadingZeros(j, buf[j..], b);
    assert seq(j, _ => 0) == Zeros(j);
    DigitsOfValue(buf[j..], b);
  }

  /** Counts the leading elements that are zero digits. */
  method CountZeros(ds: seq<int>) returns (zeros: nat)
    ensures zeros == LeadingZeros(ds)
  {
    zeros := 0;
    while zeros < |ds| && ds[zeros] == 0
      invariant zeros <= |ds| && LeadingZeros(ds) == zeros + LeadingZeros(ds[zeros..])
    {
      assert ds[zeros..][1..] == ds[zeros + 1..];
      zeros := zeros + 1;
    }
  }

  /** Converts a digit string in place into a buffer that is large enough for it. */
  method ConvertDigits(ds: seq<int>, size: nat, from: Base, to: Base) returns (r: seq<int>)
    requires IsDigits(ds, from) && Pow(from, |ds|) < Pow(to, size) && 0 < size
    ensures r == Convert(ds, from, to)
  {
    var zeros := CountZeros(ds);
    var buf := new int[size](_ => 0);
    var high := size - 1;
    ZeroValue(buf[..], to);
    for k := 0 to |ds|
      invariant -1 <= high < size
      invariant IsDigits(buf[..], to) && ZeroUpTo(buf[..], high)
      invariant Value(buf[..], to) == Value(ds[..k], from)
    {
      assert ds[..k + 1] == ds[..k] + [ds[k]];
      ValueSnoc(ds[..k], ds[k], from);
      PrefixFits(ds, k + 1, size, from, to);
      high := Push(buf, high, ds[k], from, to);
    }
    assert ds[..|ds|] == ds;
    var j := TrimLeft(buf, to);
    r := seq(zeros, _ => 0) + buf[j..];
  }

  lemma PrefixFits(ds: seq<int>, k: nat, size: nat, from: Base, to: Base)
    requires k <= |ds| && IsDigits(ds, from) && Pow(from, |ds|) < Pow(to, size)
    ensures Value(ds[..k], from) < Pow(to, size)
  {
    ValueBounded(ds[..k], from);
    PowIncreasing(from, k, |ds|);
  }

  method Base58Encode(b: seq<Byte>) returns (s: string)
    ensures s == EncodeSpec(b)
  {
    if |b| == 0 {
      return "";
    }
    EncodeFits(|b|);
    var ds := ConvertDigits(b, |b| * 138 / 100 + 1, 256, 58);
    s := DigitsToText(ds);
  }

  /** Decodes text over the alphabet; the first character outside it is an error. */
  method Base58Decode(s: string) returns (r: DecodeResult)
    ensures IsText(s) ==> r == Decoded(DecodeSpec(s))
    ensures !IsText(s) ==>
      exists i :: 0 <= i < |s| && r == InvalidChar(s[i]) && !InAlphabet(s[i]) && IsText(s[..i])
  {
    if s == "" {
      return Decoded([]);
    }
    var table := InitTable();
    var ds: seq<int> := [];
    for i := 0 to |s|
      invariant IsText(s[..i]) && ds == TextToDigits(s[..i])
      invariant forall code: nat :: code < 128 ==> table[code] == TableDigit(58, code)
    {
      var c := s[i];
      DigitOfInverts(c);
      if c as int >= 128 || table[c as int] == -1 {
        return InvalidChar(c);
      }
      ds := ds + [table[c as int]];
      assert s[..i + 1] == s[..i] + [c];
    }
    assert s[..|s|] == s;
    DecodeFits(|s|);
    var out := ConvertDigits(ds, |s| * 733 / 1000 + 1, 58, 256);
    r := Decoded(seq(|out|, i requires 0 <= i < |out| => out[i] as Byte));
  }
}
