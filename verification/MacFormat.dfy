// CCM and CMAC octet by octet: the formatted blocks of RFC 3610 and the masked last block of RFC 4493 read back field by
// field, and ciphertext, tags and chains in those terms.

module MacFormat {
  import opened Bytes
  import opened CcmSpec
  import opened CmacSpec

  lemma SameNumber(s: seq<byte>, t: seq<byte>)
    requires |s| == |t|
    ensures FromBE(s) == FromBE(t) <==> s == t
  {
    BEofFromBE(s);
    BEofFromBE(t);
  }

  // ---------- RFC 3610, section 2.2 ----------

  /** B_0: reserved bit, Adata, M' and L' in the flags, the nonce, and the message length. */
  predicate IsFirstBlock(b: Block, nonce: seq<byte>, hasAdd: bool, tagLen: nat, length: nat)
    requires 7 <= |nonce| <= 13
  {
    && b[0] / 128 == 0 && (b[0] / 64 % 2 == 1 <==> hasAdd) && b[0] / 8 % 8 == (tagLen - 2) / 2 && b[0] % 8 == (15 - |nonce|) - 1
    && b[1..1 + |nonce|] == nonce && FromBE(b[1 + |nonce|..]) == length
  }

  lemma FirstBlockIs(b: Block, nonce: seq<byte>, hasAdd: bool, tagLen: nat, length: nat)
    requires 4 <= tagLen <= 16 && tagLen % 2 == 0 && 7 <= |nonce| <= 13 && length < Pow256(15 - |nonce|)
    ensures b == FirstBlock(nonce, hasAdd, tagLen, length) <==> IsFirstBlock(b, nonce, hasAdd, tagLen, length)
  {
    var f, q := FirstBlock(nonce, hasAdd, tagLen, length), 15 - |nonce|;
    FromBEofBE(length, q);
    FlagBits(hasAdd, tagLen, q);
    hide BE, FromBE, Flags, Pow256;
    assert f[1..1 + |nonce|] == nonce && f[1 + |nonce|..] == BE(length, q);
    if IsFirstBlock(b, nonce, hasAdd, tagLen, length) {
      SameNumber(b[1 + |nonce|..], f[1 + |nonce|..]);
      OctetBits(b[0], f[0]);
      assert b == [b[0]] + b[1..1 + |nonce|] + b[1 + |nonce|..] && f == [f[0]] + f[1..1 + |nonce|] + f[1 + |nonce|..];
    }
  }

  lemma FlagBits(hasAdd: bool, tagLen: nat, q: nat)
    requires 4 <= tagLen <= 16 && tagLen % 2 == 0 && 2 <= q <= 8
    ensures var f := Flags(hasAdd, tagLen, q);
            f / 128 == 0 && (f / 64 % 2 == 1 <==> hasAdd) && f / 8 % 8 == (tagLen - 2) / 2 && f % 8 == q - 1
  {
    Digits(if hasAdd then 1 else 0, (tagLen - 2) / 2, q - 1);
  }

  lemma Digits(x: nat, y: nat, z: nat)
    requires x <= 1 && y <= 7 && z <= 7
    ensures var f := x * 64 + y * 8 + z; f / 128 == 0 && f / 64 % 2 == x && f / 8 % 8 == y && f % 8 == z
  {
    var f := x * 64 + y * 8 + z;
    assert f / 8 == 8 * x + y && f / 64 == x;
  }

  lemma OctetBits(a: byte, b: byte)
    requires a / 128 == b / 128 && a / 64 % 2 == b / 64 % 2 && a / 8 % 8 == b / 8 % 8 && a % 8 == b % 8
    ensures a == b
  {
    OctetDigits(a);
    OctetDigits(b);
  }

  lemma OctetDigits(a: byte)
    ensures a / 64 == 2 * (a / 128) + a / 64 % 2 && a / 8 == 8 * (a / 64) + a / 8 % 8 && a == 8 * (a / 8) + a % 8
  {
  }

  /** X_1 = E(B_0), X_(i+1) = E(X_i xor B_i): the chain, from its end. */
  lemma {:induction false} CbcMacAppend(aes: Aes, key: Block, y: Block, data: seq<byte>, b: Block)
    requires |data| % 16 == 0
    ensures |data + b| % 16 == 0 && CbcMac(aes, key, y, data + b) == aes(key, XorSeq(CbcMac(aes, key, y, data), b))
    decreases |data|
  {
    hide XorSeq;
    if data == [] {
      assert data + b == b && b[..16] == b && b[16..] == [];
    } else {
      assert (data + b)[..16] == data[..16] && (data + b)[16..] == data[16..] + b;
      CbcMacAppend(aes, key, MacStep(aes, key, y, data[..16]), data[16..], b);
    }
  }

  /** Zero octets up to the next whole block, fewer than sixteen. */
  lemma PadOctet(s: seq<byte>, k: nat)
    requires k < |Pad16(s)|
    ensures Pad16(s)[k] == if k < |s| then s[k] else 0
  {
  }

  // ---------- RFC 3610, section 2.3 ----------

  /** A_i: L' in the flags, the nonce, and the counter. */
  predicate IsCounterBlock(a: Block, nonce: seq<byte>, i: nat)
    requires 7 <= |nonce| <= 13
  {
    a[0] == (15 - |nonce|) - 1 && a[1..1 + |nonce|] == nonce && FromBE(a[1 + |nonce|..]) == i
  }

  lemma CounterBlockIs(a: Block, nonce: seq<byte>, i: nat)
    requires 7 <= |nonce| <= 13 && i < Pow256(15 - |nonce|)
    ensures a == CounterBlock(nonce, i) <==> IsCounterBlock(a, nonce, i)
  {
    var f, q := CounterBlock(nonce, i), 15 - |nonce|;
    FromBEofBE(i, q);
    hide BE, FromBE, Pow256;
    assert f[1..1 + |nonce|] == nonce && f[1 + |nonce|..] == BE(i, q);
    if IsCounterBlock(a, nonce, i) {
      SameNumber(a[1 + |nonce|..], f[1 + |nonce|..]);
      assert a == [a[0]] + a[1..1 + |nonce|] + a[1 + |nonce|..] && f == [f[0]] + f[1..1 + |nonce|] + f[1 + |nonce|..];
    }
  }

  /** Octet i of the ciphertext, the k-th of block j, is that of the message masked with octet k of E(A_(j+1)). */
  lemma CiphertextOctet(aes: Aes, key: Block, nonce: seq<byte>, add: seq<byte>, tagLen: nat, m: seq<byte>, i: nat, j: nat, k: nat, a: Block)
    requires Admissible(|nonce|, |add|, tagLen, |m|) && k < 16 && i == 16 * j + k < |m| && IsCounterBlock(a, nonce, j + 1)
    ensures var c := Encrypt(aes, key, nonce, add, tagLen, m); |c.text| == |m| && c.text[i] == Xor(m[i], aes(key, a)[k])
  {
    CounterInField(nonce, add, tagLen, |m|, j, k);
    hide *;
    TextIs(aes, key, nonce, add, tagLen, m);
    TextOctet(aes, key, nonce, m, i, j, k, a);
  }

  lemma TextOctet(aes: Aes, key: Block, nonce: seq<byte>, m: seq<byte>, i: nat, j: nat, k: nat, a: Block)
    requires 7 <= |nonce| <= 13 && j + 1 < Pow256(15 - |nonce|) && k < 16 && i == 16 * j + k < |m| && IsCounterBlock(a, nonce, j + 1)
    ensures CtrFrom(aes, key, nonce, 1, m)[i] == Xor(m[i], aes(key, a)[k])
  {
    hide *;
    CounterBlockIs(a, nonce, j + 1);
    CtrOctet(aes, key, nonce, 1, m, j, k);
  }

  lemma CounterInField(nonce: seq<byte>, add: seq<byte>, tagLen: nat, len: nat, j: nat, k: nat)
    requires Admissible(|nonce|, |add|, tagLen, len) && 16 * j + k < len
    ensures 4 <= tagLen <= 16 && 7 <= |nonce| <= 13 && j + 1 < Pow256(15 - |nonce|)
  {
    BlockIndex(len, j, k);
    CountersNeverRepeat(nonce, add, tagLen, len, BlockCount(len), BlockCount(len));
    hide Pow256, CounterBlock, FirstBlock, BlockCount;
  }

  lemma BlockIndex(len: nat, j: nat, k: nat)
    requires 16 * j + k < len
    ensures j + 1 <= BlockCount(len)
  {
  }

  lemma TextIs(aes: Aes, key: Block, nonce: seq<byte>, add: seq<byte>, tagLen: nat, m: seq<byte>)
    requires 4 <= tagLen <= 16 && 7 <= |nonce| <= 13
    ensures Encrypt(aes, key, nonce, add, tagLen, m).text == CtrFrom(aes, key, nonce, 1, m)
  {
    hide CtrFrom, Tag;
  }

  /** Octet k of the tag is that of the CBC-MAC of B_0, the associated data with their length, and the message, each
      padded, masked with octet k of E(A_0). */
  lemma TagOctet(aes: Aes, key: Block, nonce: seq<byte>, add: seq<byte>, tagLen: nat, m: seq<byte>, k: nat, b: Block, a: Block)
    requires Admissible(|nonce|, |add|, tagLen, |m|) && k < tagLen && |add| != 0xFF00
    requires IsFirstBlock(b, nonce, add != [], tagLen, |m|) && IsCounterBlock(a, nonce, 0)
    ensures var c, data := Encrypt(aes, key, nonce, add, tagLen, m), b + (RfcAddBlocks(add) + Pad16(m));
            |c.tag| == tagLen && |data| % 16 == 0 && c.tag[k] == Xor(CbcMac(aes, key, ZERO_BLOCK, data)[k], aes(key, a)[k])
  {
    assert Pow256(15 - |nonce|) > 0;
    FirstBlockIs(b, nonce, add != [], tagLen, |m|);
    CounterBlockIs(a, nonce, 0);
    AddEncodingMatchesRfc(add);
    assert MacInput(nonce, add, tagLen, m) == b + (RfcAddBlocks(add) + Pad16(m));
    hide Xor, CounterBlock, CtrFrom, MacInput, RfcAddBlocks, Pad16, CbcMac, Pow256, IsFirstBlock, IsCounterBlock, FirstBlock;
  }

  // ---------- RFC 4493, section 2.4 ----------

  /** k is l times x in GF(2^128), bit by bit. */
  ghost predicate IsDoubled(k: Block, l: Block) { forall j :: 0 <= j < 128 ==> Coefficient(k, j) == TimesX(l, j) }

  lemma SameCoefficients(a: Block, b: Block)
    requires forall j :: 0 <= j < 128 ==> Coefficient(a, j) == Coefficient(b, j)
    ensures a == b
  {
    assert Pow2(8) == 256;
    forall i | 0 <= i < 16 ensures a[i] == b[i] {
      forall j | 0 <= j < 8 ensures TestBit(a[i], j) == TestBit(b[i], j) {
        assert Coefficient(a, 8 * i + (7 - j)) == Coefficient(b, 8 * i + (7 - j));
        assert (8 * i + (7 - j)) / 8 == i && (8 * i + (7 - j)) % 8 == 7 - j;
      }
      SameBits(a[i], b[i], 8);
    }
  }

  lemma DoubledIs(k: Block, l: Block)
    requires IsDoubled(k, l)
    ensures k == Double(l)
  {
    forall j | 0 <= j < 128 ensures Coefficient(k, j) == Coefficient(Double(l), j) { DoubleIsTimesX(l, j); }
    hide Coefficient, TimesX, Double;
    SameCoefficients(k, Double(l));
  }

  /** The masked last block, octet by octet: a whole block is masked with K1, any other is completed with a one bit and
      zeros and masked with K2, where K1 is E(0) doubled and K2 is K1 doubled. */
  lemma LastBlockOctet(aes: Aes, key: Block, s: seq<byte>, k1: Block, k2: Block, k: nat)
    requires |s| <= 16 && k < 16 && IsDoubled(k1, aes(key, ZERO_BLOCK)) && IsDoubled(k2, k1)
    ensures LastBlock(aes, key, s)[k]
            == if |s| == 16 then Xor(s[k], k1[k]) else Xor(if k < |s| then s[k] else if k == |s| then 0x80 else 0, k2[k])
  {
    DoubledIs(k1, aes(key, ZERO_BLOCK));
    DoubledIs(k2, k1);
    hide Xor, Double, IsDoubled;
  }

  // ---------- key derivation ----------

  /** s1 is CMAC under the zero key; k1 is CMAC of the label under the CMAC of the secret under the salt. */
  lemma DerivationIs(aes: Aes, n: seq<byte>, salt: Block, p: seq<byte>, m: seq<byte>, zero: Block, t: Block)
    requires FromBE(zero) == 0 && t == Cmac(aes, salt, n)
    ensures S1(aes, m) == Cmac(aes, zero, m) && K1(aes, n, salt, p) == Cmac(aes, t, p)
  {
    assert FromBE(ZERO_BLOCK) == 0 by { ZeroNumber(16); assert ZERO_BLOCK == Zeros(16); }
    SameNumber(zero, ZERO_BLOCK);
    hide Cmac, FromBE;
  }

  lemma {:induction false} ZeroNumber(n: nat)
    ensures FromBE(Zeros(n)) == 0
  {
    if n > 0 {
      ZeroNumber(n - 1);
      assert Zeros(n)[..n - 1] == Zeros(n - 1);
    }
  }
}
