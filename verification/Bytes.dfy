// Octets, big-endian numbers and 16-octet blocks, shared by every layer.

module Bytes {

  type byte = x: int | 0 <= x < 256

  type Block = s: seq<byte> | |s| == 16 witness seq(16, _ => 0)

  /** A block cipher with 16-octet keys: key, then input. Nothing is assumed about it. */
  type Aes = (Block, Block) -> Block

  datatype Option<+T> = None | Some(value: T)

  const ZERO_BLOCK: Block := [0, 0, 0, 0, 0, 0, 0, 0, 0, 0, 0, 0, 0, 0, 0, 0]

  // ---------- exclusive or ----------

  function XorBits(a: nat, b: nat, n: nat): nat {
    if n == 0 then 0 else (if a % 2 == b % 2 then 0 else 1) + 2 * XorBits(a / 2, b / 2, n - 1)
  }

  function Pow2(n: nat): (p: nat)
    ensures p > 0
  {
    if n == 0 then 1 else 2 * Pow2(n - 1)
  }

  lemma {:induction false} XorBitsBound(a: nat, b: nat, n: nat)
    ensures XorBits(a, b, n) < Pow2(n)
  {
    if n > 0 { XorBitsBound(a / 2, b / 2, n - 1); }
  }

  /** The C operator ^ on two octets. */
  function Xor(a: byte, b: byte): byte {
    XorBitsBound(a, b, 8);
    assert Pow2(8) == 256;
    XorBits(a, b, 8)
  }

  lemma {:induction false} XorBitsInvolution(a: nat, b: nat, n: nat)
    requires a < Pow2(n)
    ensures XorBits(XorBits(a, b, n), b, n) == a
  {
    if n > 0 {
      XorBitsInvolution(a / 2, b / 2, n - 1);
      var r := XorBits(a / 2, b / 2, n - 1);
      var x := XorBits(a, b, n);
      assert x / 2 == r && x % 2 == (if a % 2 == b % 2 then 0 else 1);
    }
  }

  /** Masking twice with the same octet gives the octet back. */
  lemma XorInvolution(a: byte, b: byte)
    ensures Xor(Xor(a, b), b) == a
  {
    assert Pow2(8) == 256;
    XorBitsInvolution(a, b, 8);
  }

  lemma {:induction false} XorBitsZero(a: nat, b: nat, n: nat)
    requires a < Pow2(n) && b < Pow2(n)
    ensures XorBits(a, b, n) == 0 <==> a == b
  {
    if n > 0 { XorBitsZero(a / 2, b / 2, n - 1); }
  }

  lemma XorZeroIffEqual(a: byte, b: byte)
    ensures Xor(a, b) == 0 <==> a == b
  {
    assert Pow2(8) == 256;
    XorBitsZero(a, b, 8);
  }

  lemma {:induction false} XorBitsSame(a: nat, b: nat, n: nat)
    requires a < Pow2(n) && b < Pow2(n)
    ensures XorBits(a, b, n) == a <==> b == 0
  {
    if n > 0 {
      XorBitsSame(a / 2, b / 2, n - 1);
      assert XorBits(a, b, n) / 2 == XorBits(a / 2, b / 2, n - 1);
      assert XorBits(a, b, n) % 2 == if a % 2 == b % 2 then 0 else 1;
    }
  }

  /** Only a zero mask leaves an octet alone. */
  lemma XorSameIffZero(a: byte, b: byte)
    ensures Xor(a, b) == a <==> b == 0
  {
    assert Pow2(8) == 256;
    XorBitsSame(a, b, 8);
  }

  function OrBits(a: nat, b: nat, n: nat): nat {
    if n == 0 then 0 else (if a % 2 == 0 && b % 2 == 0 then 0 else 1) + 2 * OrBits(a / 2, b / 2, n - 1)
  }

  lemma {:induction false} OrBitsFacts(a: nat, b: nat, n: nat)
    requires a < Pow2(n) && b < Pow2(n)
    ensures OrBits(a, b, n) < Pow2(n)
    ensures OrBits(a, b, n) == 0 <==> a == 0 && b == 0
  {
    if n > 0 { OrBitsFacts(a / 2, b / 2, n - 1); }
  }

  /** The C operator | on two octets. */
  function Or(a: byte, b: byte): (r: byte)
    ensures r == 0 <==> a == 0 && b == 0
  {
    assert Pow2(8) == 256;
    OrBitsFacts(a, b, 8);
    OrBits(a, b, 8)
  }

  function XorSeq(a: seq<byte>, b: seq<byte>): (r: seq<byte>)
    requires |a| <= |b|
    ensures |r| == |a|
  {
    seq(|a|, i requires 0 <= i < |a| => Xor(a[i], b[i]))
  }

  lemma XorSeqInvolution(a: seq<byte>, b: seq<byte>)
    requires |a| <= |b|
    ensures XorSeq(XorSeq(a, b), b) == a
  {
    forall i | 0 <= i < |a| ensures XorSeq(XorSeq(a, b), b)[i] == a[i] {
      XorInvolution(a[i], b[i]);
    }
  }

  // ---------- bit fields ----------

  /** Bit j of a number, least significant first. */
  function TestBit(v: nat, j: nat): bool
    decreases j
  {
    if j == 0 then v % 2 == 1 else TestBit(v / 2, j - 1)
  }

  /** Numbers of n bits with the same bits are the same. */
  lemma {:induction false} SameBits(a: nat, b: nat, n: nat)
    requires a < Pow2(n) && b < Pow2(n) && forall j :: 0 <= j < n ==> TestBit(a, j) == TestBit(b, j)
    ensures a == b
  {
    if n > 0 {
      forall j | 0 <= j < n - 1 ensures TestBit(a / 2, j) == TestBit(b / 2, j) { assert TestBit(a, j + 1) == TestBit(b, j + 1); }
      assert TestBit(a, 0) == TestBit(b, 0);
      SameBits(a / 2, b / 2, n - 1);
    }
  }

  // A bit field is the set of its set bits.

  function Bits(k: nat): (r: set<nat>)
    ensures forall i: nat :: i in r <==> i < k
  {
    if k == 0 then {} else Bits(k - 1) + {k - 1}
  }

  // ---------- buffers ----------

  /** buf with the octets from off on overwritten by data. */
  function Splice(buf: seq<byte>, off: nat, data: seq<byte>): (r: seq<byte>)
    requires off + |data| <= |buf|
    ensures |r| == |buf|
  {
    buf[..off] + data + buf[off + |data|..]
  }

  lemma SpliceElsewhere(buf: seq<byte>, off: nat, data: seq<byte>, a: nat, b: nat)
    requires off + |data| <= |buf| && a <= b <= |buf| && (b <= off || off + |data| <= a)
    ensures Splice(buf, off, data)[a..b] == buf[a..b]
  {
  }

  lemma SpliceHere(buf: seq<byte>, off: nat, data: seq<byte>)
    requires off + |data| <= |buf|
    ensures Splice(buf, off, data)[off..off + |data|] == data
  {
  }

  // ---------- big-endian numbers ----------

  function Pow256(n: nat): (p: nat)
    ensures p > 0
  {
    if n == 0 then 1 else 256 * Pow256(n - 1)
  }

  /** The n low octets of v, most significant first. */
  function BE(v: nat, n: nat): (s: seq<byte>)
    ensures |s| == n
  {
    if n == 0 then [] else BE(v / 256, n - 1) + [v % 256]
  }

  function FromBE(s: seq<byte>): nat {
    if |s| == 0 then 0 else 256 * FromBE(s[..|s| - 1]) + s[|s| - 1]
  }

  lemma {:induction false} FromBEofBE(v: nat, n: nat)
    requires v < Pow256(n)
    ensures FromBE(BE(v, n)) == v
  {
    if n > 0 {
      FromBEofBE(v / 256, n - 1);
      assert BE(v, n)[..n - 1] == BE(v / 256, n - 1);
    }
  }

  lemma {:induction false} FromBEBound(s: seq<byte>)
    ensures FromBE(s) < Pow256(|s|)
  {
    if |s| > 0 { FromBEBound(s[..|s| - 1]); }
  }

  lemma {:induction false} BEofFromBE(s: seq<byte>)
    ensures BE(FromBE(s), |s|) == s
  {
    if |s| > 0 {
      BEofFromBE(s[..|s| - 1]);
      assert s == s[..|s| - 1] + [s[|s| - 1]];
    }
  }

  lemma BEInjective(v: nat, w: nat, n: nat)
    requires v < Pow256(n) && w < Pow256(n) && BE(v, n) == BE(w, n)
    ensures v == w
  {
    FromBEofBE(v, n);
    FromBEofBE(w, n);
  }
}
