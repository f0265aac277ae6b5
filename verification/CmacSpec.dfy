// AES-CMAC as RFC 4493 section 2 defines it: subkeys by doubling in GF(2^128), padding, and the block chain.

module CmacSpec {
  import opened Bytes
  import opened CcmSpec

  // ---------- doubling ----------

  /** One octet of the shifted block, with the carry from the octet after it. */
  function ShiftedOctet(v: byte, carry: byte): byte
    requires carry <= 1
  {
    v * 2 % 256 + carry
  }

  function CarryInto(b: Block, i: nat): byte
    requires i < 16
  {
    if i + 1 < 16 && b[i + 1] >= 128 then 1 else 0
  }

  function LeftShift(b: Block): Block { seq(16, i requires 0 <= i < 16 => ShiftedOctet(b[i], CarryInto(b, i))) }

  const RB: Block := [0, 0, 0, 0, 0, 0, 0, 0, 0, 0, 0, 0, 0, 0, 0, 0x87]

  /** The subkey step. */
  function Double(b: Block): Block { if b[0] < 128 then LeftShift(b) else XorSeq(LeftShift(b), RB) }

  lemma {:induction false} ShiftPrefix(b: Block, k: nat)
    requires k <= 16
    ensures FromBE(LeftShift(b)[16 - k..]) + Pow256(k) * (if k > 0 && b[16 - k] >= 128 then 1 else 0)
            == 2 * FromBE(b[16 - k..])
  {
    var s := LeftShift(b);
    if k > 0 {
      ShiftPrefix(b, k - 1);
      FromBEFront(s[16 - k..]);
      FromBEFront(b[16 - k..]);
      assert s[16 - k..][1..] == s[16 - (k - 1)..] && b[16 - k..][1..] == b[16 - (k - 1)..];
      ShiftStep(b[16 - k], CarryInto(b, 16 - k), Pow256(k - 1), FromBE(s[16 - (k - 1)..]), FromBE(b[16 - (k - 1)..]));
    }
  }

  lemma ShiftStep(v: byte, carry: byte, p: nat, s: nat, t: nat)
    requires carry <= 1 && s + p * carry == 2 * t
    ensures ShiftedOctet(v, carry) * p + s + 256 * p * (if v >= 128 then 1 else 0) == 2 * (v * p + t)
  {
    if v >= 128 {
      assert ShiftedOctet(v, carry) == 2 * v - 256 + carry;
      assert (2 * v - 256 + carry) * p == 2 * (v * p) - 256 * p + carry * p;
    } else {
      assert (2 * v + carry) * p == 2 * (v * p) + carry * p;
    }
  }

  lemma {:induction false} FromBEFront(s: seq<byte>)
    requires s != []
    ensures FromBE(s) == s[0] * Pow256(|s| - 1) + FromBE(s[1..])
  {
    if |s| > 1 {
      FromBEFront(s[..|s| - 1]);
      assert s[..|s| - 1][1..] == s[1..][..|s| - 2];
      assert s[0] * (256 * Pow256(|s| - 2)) == 256 * (s[0] * Pow256(|s| - 2));
    }
  }

  /** The carry loop doubles the 128-bit number modulo 2^128. */
  lemma LeftShiftDoubles(b: Block)
    ensures FromBE(LeftShift(b)) == 2 * FromBE(b) % Pow256(16)
  {
    ShiftPrefix(b, 16);
    assert LeftShift(b)[0..] == LeftShift(b) && b[0..] == b;
    FromBEBound(LeftShift(b));
    FromBEBound(b);
    hide *;
    ModOnce(2 * FromBE(b), FromBE(LeftShift(b)), Pow256(16), if b[0] >= 128 then 1 else 0);
  }

  lemma ModOnce(x: nat, r: nat, p: nat, c: nat)
    requires p > 0 && r < p && r + p * c == x && c <= 1
    ensures r == x % p
  {
  }

  // ---------- GF(2^128) ----------

  /** Coefficient of x^(127 - k), most significant bit first. */
  function Coefficient(b: Block, k: nat): bool
    requires k < 128
  {
    TestBit(b[k / 8], 7 - k % 8)
  }

  /** Coefficient of x^(127 - k) in x times the polynomial, modulo x^128 + x^7 + x^2 + x + 1. */
  function TimesX(b: Block, k: nat): bool
    requires k < 128
  {
    (k + 1 < 128 && Coefficient(b, k + 1)) != (Coefficient(b, 0) && (k == 120 || k == 125 || k == 126 || k == 127))
  }

  lemma {:induction false} XorBit(a: nat, b: nat, n: nat, j: nat)
    requires j < n
    ensures TestBit(XorBits(a, b, n), j) == (TestBit(a, j) != TestBit(b, j))
    decreases j
  {
    var r, x := XorBits(a / 2, b / 2, n - 1), XorBits(a, b, n);
    assert x / 2 == r && x % 2 == (if a % 2 == b % 2 then 0 else 1);
    if j > 0 { XorBit(a / 2, b / 2, n - 1, j - 1); }
  }

  lemma {:induction false} LowBits(v: nat, n: nat, j: nat)
    requires j < n
    ensures TestBit(v % Pow2(n), j) == TestBit(v, j)
    decreases j
  {
    var q := Pow2(n - 1);
    HalfOfRest(v, q);
    if j > 0 { LowBits(v / 2, n - 1, j - 1); }
  }

  lemma HalfOfRest(v: nat, q: nat)
    requires q > 0
    ensures v % (2 * q) / 2 == v / 2 % q && v % (2 * q) % 2 == v % 2
  {
    var d, r := v / 2 / q, v / 2 % q;
    assert v / 2 == q * d + r;
    assert v == (2 * q) * d + (2 * r + v % 2);
    RestUnique(v, 2 * q, d, 2 * r + v % 2);
  }

  lemma RestUnique(v: nat, p: nat, q: nat, r: nat)
    requires p > 0 && r < p && v == p * q + r
    ensures v % p == r
  {
    var d := v / p - q;
    assert v == p * (v / p) + v % p;
    assert p * d == p * (v / p) - p * q;
    MulAtLeast(p, d);
  }

  lemma MulAtLeast(p: nat, d: int)
    ensures d >= 1 ==> p * d >= p
    ensures d <= -1 ==> p * d <= 0 - p
  {
    assert p * d == p * (d - 1) + p && p * d == p * (d + 1) - p;
  }

  lemma ShiftedOctetBit(v: byte, carry: byte, j: nat)
    requires carry <= 1 && j < 8
    ensures TestBit(ShiftedOctet(v, carry), j) == if j == 0 then carry == 1 else TestBit(v, j - 1)
  {
    var s := ShiftedOctet(v, carry);
    assert s / 2 == v % 128 && s % 2 == carry;
    assert Pow2(7) == 128;
    if j > 0 { LowBits(v, 7, j - 1); }
  }

  lemma TopBit(v: byte)
    ensures TestBit(v, 7) <==> v >= 128
  {
    TopOf(v, 7);
  }

  lemma {:induction false} TopOf(v: nat, j: nat)
    requires v < 2 * Pow2(j)
    ensures TestBit(v, j) <==> v >= Pow2(j)
  {
    if j > 0 { TopOf(v / 2, j - 1); }
  }

  lemma LeftShiftBit(b: Block, i: nat, j: nat)
    requires i < 16 && j < 8
    ensures TestBit(LeftShift(b)[i], j) == if j > 0 then TestBit(b[i], j - 1) else i + 1 < 16 && TestBit(b[i + 1], 7)
  {
    ShiftedOctetBit(b[i], CarryInto(b, i), j);
    if i + 1 < 16 { TopBit(b[i + 1]); }
    hide TestBit, ShiftedOctet;
  }

  lemma LeftShiftCoefficient(b: Block, k: nat)
    requires k < 128
    ensures Coefficient(LeftShift(b), k) == (k + 1 < 128 && Coefficient(b, k + 1))
  {
    LeftShiftBit(b, k / 8, 7 - k % 8);
    hide TestBit, LeftShift;
    NextIndex(k);
  }

  lemma NextIndex(k: nat)
    ensures k % 8 == 7 ==> (k + 1) / 8 == k / 8 + 1 && (k + 1) % 8 == 0
    ensures k % 8 != 7 ==> (k + 1) / 8 == k / 8 && (k + 1) % 8 == k % 8 + 1
  {
  }

  lemma RbBit(j: nat)
    requires j < 8
    ensures TestBit(0x87, j) <==> j == 7 || j <= 2
  {
    assert TestBit(0x87, 0) && TestBit(0x87, 1) && TestBit(0x87, 2) && !TestBit(0x87, 3);
    assert !TestBit(0x87, 4) && !TestBit(0x87, 5) && !TestBit(0x87, 6) && TestBit(0x87, 7);
  }

  lemma {:induction false} ZeroBit(j: nat)
    ensures !TestBit(0, j)
  {
    if j > 0 { ZeroBit(j - 1); }
  }

  lemma XorOctetBit(a: byte, b: byte, j: nat)
    requires j < 8
    ensures TestBit(Xor(a, b), j) == (TestBit(a, j) != TestBit(b, j))
  {
    XorBit(a, b, 8, j);
  }

  /** The subkey step is multiplication by x in GF(2^128). */
  lemma DoubleIsTimesX(b: Block, k: nat)
    requires k < 128
    ensures Coefficient(Double(b), k) == TimesX(b, k)
  {
    hide TestBit, Xor, ShiftedOctet;
    LeftShiftCoefficient(b, k);
    TopBit(b[0]);
    var i, j := k / 8, 7 - k % 8;
    XorOctetBit(LeftShift(b)[i], RB[i], j);
    RbCoefficient(k);
    hide LeftShift;
  }

  lemma RbCoefficient(k: nat)
    requires k < 128
    ensures Coefficient(RB, k) == (k == 120 || k == 125 || k == 126 || k == 127)
  {
    if k < 120 {
      assert RB[k / 8] == 0;
      ZeroBit(7 - k % 8);
    } else {
      assert RB[k / 8] == 0x87;
      RbBit(7 - k % 8);
    }
    hide TestBit;
  }

  // ---------- padding ----------

  /** padding: a one bit, then zeros. */
  function PadLast(s: seq<byte>): Block
    requires |s| < 16
  {
    s + [0x80] + Zeros(15 - |s|)
  }

  /** Different partial blocks, of whatever lengths, pad to different blocks. */
  lemma PadLastInjective(s: seq<byte>, t: seq<byte>)
    requires |s| < 16 && |t| < 16 && PadLast(s) == PadLast(t)
    ensures s == t
  {
    var p, q := PadLast(s), PadLast(t);
    assert p[|s|] == 0x80 && q[|t|] == 0x80;
    assert forall i :: |s| < i < 16 ==> p[i] == 0;
    assert forall i :: |t| < i < 16 ==> q[i] == 0;
    assert |s| == |t|;
    assert s == p[..|s|] && t == q[..|t|];
  }

  // ---------- the MAC ----------

  function Subkey1(aes: Aes, key: Block): Block { Double(aes(key, ZERO_BLOCK)) }

  function Subkey2(aes: Aes, key: Block): Block { Double(Subkey1(aes, key)) }

  /** The masked last block. */
  function LastBlock(aes: Aes, key: Block, s: seq<byte>): Block
    requires |s| <= 16
  {
    if |s| == 16 then XorSeq(s, Subkey1(aes, key)) else XorSeq(PadLast(s), Subkey2(aes, key))
  }

  function FinalStep(aes: Aes, key: Block, x: Block, m: seq<byte>): Block
    requires |m| <= 16
  {
    MacStep(aes, key, x, LastBlock(aes, key, m))
  }

  /** The recursive definition, from chaining value x on. */
  function CmacFrom(aes: Aes, key: Block, x: Block, m: seq<byte>): Block
    decreases |m|
  {
    if |m| <= 16 then FinalStep(aes, key, x, m)
    else CmacFrom(aes, key, MacStep(aes, key, x, m[..16]), m[16..])
  }

  function Cmac(aes: Aes, key: Block, m: seq<byte>): Block { CmacFrom(aes, key, ZERO_BLOCK, m) }

  /** Octets before the last block. */
  function FrontLen(len: nat): nat { if len == 0 then 0 else (len - 1) / 16 * 16 }

  /** CMAC is the CBC-MAC of the message with its last block padded and masked by a subkey. */
  lemma {:induction false} CmacIsCbcMac(aes: Aes, key: Block, x: Block, m: seq<byte>)
    ensures FrontLen(|m|) <= |m| <= FrontLen(|m|) + 16
    ensures var f := m[..FrontLen(|m|)] + LastBlock(aes, key, m[FrontLen(|m|)..]);
            |f| % 16 == 0 && CmacFrom(aes, key, x, m) == CbcMac(aes, key, x, f)
    decreases |m|
  {
    hide LastBlock, XorSeq;
    var n := FrontLen(|m|);
    var last: Block := LastBlock(aes, key, m[n..]);
    var f := m[..n] + last;
    assert n % 16 == 0;
    if |m| <= 16 {
      assert f == last && m[n..] == m;
      assert last[..16] == last && last[16..] == [];
      assert CbcMac(aes, key, MacStep(aes, key, x, last), []) == MacStep(aes, key, x, last);
    } else {
      var y := MacStep(aes, key, x, m[..16]);
      CmacIsCbcMac(aes, key, y, m[16..]);
      assert FrontLen(|m[16..]|) == n - 16;
      assert m[16..][n - 16..] == m[n..];
      assert f[..16] == m[..16] && f[16..] == m[16..][..n - 16] + last;
    }
  }

  // ---------- key derivation (mesh/security/meshx_security.c) ----------

  function S1(aes: Aes, m: seq<byte>): Block { Cmac(aes, ZERO_BLOCK, m) }

  function K1(aes: Aes, n: seq<byte>, salt: Block, p: seq<byte>): Block { Cmac(aes, Cmac(aes, salt, n), p) }
}
