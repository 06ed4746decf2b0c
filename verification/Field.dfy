/** Arithmetic modulo p and the byte form of field elements. */
module Field {
  import opened Arithmetic
  import Radix

  type Byte = b: int | 0 <= b < 256

  const DEFAULT_PRIME: Modulus := 170141183460469231731687303715884105727

  /** The default prime is 2^127 - 1. */
  lemma DefaultPrime()
    ensures DEFAULT_PRIME + 1 == 0x8000_0000_0000_0000_0000_0000_0000_0000
  {
  }

  predicate Element(x: int, p: Modulus) {
    0 <= x < p
  }

  function Reduce(x: int, p: Modulus): (r: int)
    ensures Element(r, p) && Cong(r, x, p)
  {
    CongMod(x, p);
    x % p
  }

  lemma ReduceElement(x: int, p: Modulus)
    requires Element(x, p)
    ensures Reduce(x, p) == x
  {
    CongSmall(Reduce(x, p), x, p);
  }

  function Add(a: int, b: int, p: Modulus): int {
    Reduce(a + b, p)
  }

  function Sub(a: int, b: int, p: Modulus): int {
    Reduce(a - b, p)
  }

  function Mul(a: int, b: int, p: Modulus): int {
    Reduce(a * b, p)
  }

  /** The shortest big-endian bytes of a number's magnitude; zero has none. */
  function Bytes(x: int): (bs: seq<Byte>) {
    var ds := Radix.Digits(Abs(x), 256);
    seq(|ds|, i requires 0 <= i < |ds| => ds[i] as Byte)
  }

  function FromBytes(bs: seq<Byte>, p: Modulus): (x: int)
    ensures Element(x, p)
  {
    Reduce(Radix.Value(bs, 256), p)
  }

  lemma BytesAreDigits(x: nat)
    ensures Bytes(x) == Radix.Digits(x, 256)
  {
  }

  /** Writing an element and reading it back is the identity. */
  lemma FromBytesBytes(x: int, p: Modulus)
    requires Element(x, p)
    ensures FromBytes(Bytes(x), p) == x
  {
    BytesAreDigits(x);
    Radix.ValueOfDigits(x, 256);
    CongSmall(Reduce(x, p), x, p);
  }

  /** A field element below 256^k has at most k bytes. */
  lemma {:induction false} BytesLength(x: nat, k: nat)
    requires x < Radix.Pow(256, k)
    ensures |Bytes(x)| <= k
    decreases k
  {
    if x != 0 {
      Radix.QuotientShrinks(x, 256);
      if k == 0 {
        assert false;
      } else {
        assert Radix.Pow(256, k) == Radix.Pow(256, k - 1) * 256;
        BytesLength(x / 256, k - 1);
        assert |Radix.Digits(x, 256)| == |Radix.Digits(x / 256, 256)| + 1;
      }
    }
  }
}
