// The AES-CMAC routines on arrays (thirdpart/aes_cmac/aes_cmac.c), each proved to compute what CmacSpec defines.

module Cmac {
  import opened Bytes
  import opened CmacSpec

  method Xor128(a: array<byte>, aOff: nat, b: array<byte>, bOff: nat, out: array<byte>)
    requires aOff + 16 <= a.Length && bOff + 16 <= b.Length && out.Length == 16 && out != a && out != b
    modifies out
    ensures out[..] == XorSeq(a[aOff..aOff + 16], b[bOff..bOff + 16])
  {
    hide Xor;
    var i := 0;
    while i < 16
      invariant i <= 16 && forall k :: 0 <= k < i ==> out[k] == Xor(a[aOff + k], b[bOff + k])
    {
      out[i] := Xor(a[aOff + i], b[bOff + i]);
      i := i + 1;
    }
  }

  method Encrypt128(aes: Aes, key: Block, input: array<byte>, output: array<byte>)
    requires input.Length == 16 && output.Length == 16
    modifies output
    ensures output[..] == aes(key, old(input[..]))
  {
    var r := aes(key, input[..]);
    forall i | 0 <= i < 16 { output[i] := r[i]; }
  }

  /** leftshift_onebit: from the last octet to the first, carrying the bit shifted out. */
  method LeftShiftOneBit(input: array<byte>, output: array<byte>)
    requires input.Length == 16 && output.Length == 16 && input != output
    modifies output
    ensures output[..] == LeftShift(input[..])
  {
    var overflow: byte := 0;
    var i := 15;
    while i >= 0
      invariant -1 <= i <= 15
      invariant overflow == if i < 15 && input[i + 1] >= 128 then 1 else 0
      invariant forall k :: i < k < 16 ==> output[k] == LeftShift(input[..])[k]
    {
      var v: int := input[i];
      output[i] := v * 2 % 256;
      OrCarry(output[i], overflow);
      output[i] := Or(output[i], overflow);
      assert output[i] == ShiftedOctet(input[i], CarryInto(input[..], i));
      overflow := if input[i] >= 128 then 1 else 0;
      i := i - 1;
    }
  }

  lemma OrCarry(v: byte, c: byte)
    requires v % 2 == 0 && c <= 1
    ensures Or(v, c) == v + c
  {
    OrEven(v, c, 8);
    assert Pow2(8) == 256;
  }

  lemma {:induction false} OrEven(v: nat, c: nat, n: nat)
    requires v % 2 == 0 && c <= 1 && v < Pow2(n) && n > 0
    ensures OrBits(v, c, n) == v + c
  {
    OrZero(v / 2, n - 1);
  }

  lemma {:induction false} OrZero(v: nat, n: nat)
    requires v < Pow2(n)
    ensures OrBits(v, 0, n) == v
  {
    if n > 0 { OrZero(v / 2, n - 1); }
  }

  /** One subkey from the block before it. */
  method NextSubkey(l: array<byte>, k: array<byte>)
    requires l.Length == 16 && k.Length == 16 && l != k
    modifies k
    ensures k[..] == Double(l[..])
  {
    hide Xor;
    if l[0] < 128 {
      LeftShiftOneBit(l, k);
    } else {
      var tmp := new byte[16];
      var rb := new byte[16](i requires 0 <= i < 16 => RB[i]);
      assert rb[..] == RB;
      LeftShiftOneBit(l, tmp);
      assert tmp[0..16] == tmp[..] && rb[0..16] == rb[..];
      Xor128(tmp, 0, rb, 0, k);
    }
  }

  method GenerateSubkey(aes: Aes, key: Block, k1: array<byte>, k2: array<byte>)
    requires k1.Length == 16 && k2.Length == 16 && k1 != k2
    modifies k1, k2
    ensures k1[..] == Subkey1(aes, key) && k2[..] == Subkey2(aes, key)
  {
    hide Double;
    var l := new byte[16];
    var z := new byte[16](_ => 0);
    assert z[..] == ZERO_BLOCK;
    Encrypt128(aes, key, z, l);
    NextSubkey(l, k1);
    NextSubkey(k1, k2);
  }

  /** padding of the length octets from off on. */
  method Padding(lastb: array<byte>, off: nat, pad: array<byte>, length: nat)
    requires length < 16 && off + length <= lastb.Length && pad.Length == 16 && pad != lastb
    modifies pad
    ensures pad[..] == PadLast(lastb[off..off + length])
  {
    var j := 0;
    while j < 16
      invariant j <= 16
      invariant forall k :: 0 <= k < j ==> pad[k] == PadLast(lastb[off..off + length])[k]
    {
      if j < length { pad[j] := lastb[off + j]; } else if j == length { pad[j] := 0x80; } else { pad[j] := 0; }
      j := j + 1;
    }
  }

  /** The masked last block of the first length octets. */
  method MaskLast(input: array<byte>, length: nat, n: nat, flag: bool, k1: array<byte>, k2: array<byte>,
                  mLast: array<byte>, ghost aes: Aes, ghost key: Block)
    requires length <= input.Length && k1.Length == 16 && k2.Length == 16 && mLast.Length == 16
    requires mLast != input && mLast != k1 && mLast != k2
    requires n >= 1 && 16 * (n - 1) <= length <= 16 * n && (flag <==> length == 16 * n)
    requires k1[..] == Subkey1(aes, key) && k2[..] == Subkey2(aes, key)
    modifies mLast
    ensures mLast[..] == LastBlock(aes, key, input[16 * (n - 1)..length])
  {
    hide Subkey1, Subkey2, Xor;
    if flag {
      assert k1[0..16] == k1[..];
      Xor128(input, 16 * (n - 1), k1, 0, mLast);
    } else {
      var padded := new byte[16];
      assert length % 16 == length - 16 * (n - 1);
      Padding(input, 16 * (n - 1), padded, length % 16);
      assert padded[0..16] == padded[..] && k2[0..16] == k2[..];
      Xor128(padded, 0, k2, 0, mLast);
    }
  }

  lemma LastStep(aes: Aes, key: Block, x: Block, m: seq<byte>)
    requires |m| <= 16
    ensures CmacFrom(aes, key, x, m) == aes(key, XorSeq(x, LastBlock(aes, key, m)))
  {
  }

  /** The loop over the first count blocks; y is scratch. */
  method ChainBlocks(aes: Aes, key: Block, input: array<byte>, length: nat, count: nat, x: array<byte>, y: array<byte>)
    requires length <= input.Length && x.Length == 16 && y.Length == 16 && x != y && x != input && y != input
    requires 16 * count <= length && (count > 0 ==> 16 * count < length) && x[..] == ZERO_BLOCK
    modifies x, y
    ensures CmacFrom(aes, key, x[..], input[16 * count..length]) == CmacSpec.Cmac(aes, key, input[..length])
  {
    hide Xor, XorSeq;
    assert input[0..length] == input[..length];
    var i := 0;
    while i < count
      invariant 0 <= i <= count
      invariant CmacFrom(aes, key, x[..], input[16 * i..length]) == CmacSpec.Cmac(aes, key, input[..length])
    {
      ChainStep(aes, key, x[..], input[16 * i..length]);
      hide CmacFrom;
      assert input[16 * i..length][..16] == input[16 * i..16 * i + 16];
      assert input[16 * i..length][16..] == input[16 * (i + 1)..length];
      assert x[0..16] == x[..];
      Xor128(x, 0, input, 16 * i, y);
      Encrypt128(aes, key, y, x);
      i := i + 1;
    }
  }

  /** AES_CMAC, for every length. */
  method AesCmac(aes: Aes, key: Block, input: array<byte>, length: nat, mac: array<byte>)
    requires length <= input.Length && mac.Length == 16 && mac != input
    modifies mac
    ensures mac[..] == CmacSpec.Cmac(aes, key, input[..length])
  {
    hide Xor, XorSeq, Subkey1, Subkey2, LastBlock, CmacFrom, CmacSpec.Cmac;
    var k1, k2, mLast := new byte[16], new byte[16], new byte[16];
    GenerateSubkey(aes, key, k1, k2);
    var n, flag := (length + 15) / 16, false;
    if n == 0 { n := 1; } else { flag := length % 16 == 0; }
    MaskLast(input, length, n, flag, k1, k2, mLast, aes, key);
    var x, y := new byte[16](_ => 0), new byte[16];
    assert x[..] == ZERO_BLOCK;
    ChainBlocks(aes, key, input, length, n - 1, x, y);
    assert x[0..16] == x[..] && mLast[0..16] == mLast[..];
    LastStep(aes, key, x[..], input[16 * (n - 1)..length]);
    ghost var m := input[..length];
    Xor128(x, 0, mLast, 0, y);
    Encrypt128(aes, key, y, x);
    assert x[..] == CmacSpec.Cmac(aes, key, m) && m == input[..length];
    forall k | 0 <= k < 16 { mac[k] := x[k]; }
    assert mac[..] == x[..] && m == input[..length];
  }

  lemma ChainStep(aes: Aes, key: Block, x: Block, m: seq<byte>)
    requires |m| > 16
    ensures CmacFrom(aes, key, x, m) == CmacFrom(aes, key, aes(key, XorSeq(x, m[..16])), m[16..])
  {
  }
}
