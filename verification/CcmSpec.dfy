// Counter with CBC-MAC as RFC 3610 defines it, on octet sequences, and the laws
// the mesh stack relies on. The buffer-level code that computes it is in Ccm.dfy.

module CcmSpec {
  import opened Bytes

  /** The parameter checks of ccm_auth_crypt. */
  predicate Admissible(nonceLen: nat, addLen: nat, tagLen: nat, length: nat) {
    && 4 <= tagLen <= 16 && tagLen % 2 == 0
    && 7 <= nonceLen <= 13
    && addLen <= 0xFF00
    && length < Pow256(15 - nonceLen)
  }

  function Zeros(n: nat): (s: seq<byte>)
    ensures |s| == n
  {
    seq(n, _ => 0)
  }

  function Pad16(s: seq<byte>): (r: seq<byte>)
    ensures |r| % 16 == 0 && |s| <= |r| < |s| + 16
  {
    s + Zeros((16 - |s| % 16) % 16)
  }

  // ---------- section 2.2: authentication ----------

  function Flags(hasAdd: bool, tagLen: nat, q: nat): byte
    requires 4 <= tagLen <= 16 && 2 <= q <= 8
  {
    (if hasAdd then 64 else 0) + (tagLen - 2) / 2 * 8 + (q - 1)
  }

  function FirstBlock(nonce: seq<byte>, hasAdd: bool, tagLen: nat, length: nat): Block
    requires 4 <= tagLen <= 16 && 7 <= |nonce| <= 13
  {
    [Flags(hasAdd, tagLen, 15 - |nonce|)] + nonce + BE(length, 15 - |nonce|)
  }

  /** Length prefix of the associated data as the code writes it: always two octets. */
  function AddBlocks(add: seq<byte>): (r: seq<byte>)
    ensures |r| % 16 == 0
  {
    if add == [] then [] else Pad16(BE(|add|, 2) + add)
  }

  /** The three-way length prefix of the RFC. */
  function RfcAddBlocks(add: seq<byte>): seq<byte> {
    if add == [] then []
    else if |add| < 0x10000 - 0x100 then Pad16(BE(|add|, 2) + add)
    else if |add| < 0x1_0000_0000 then Pad16([0xFF, 0xFE] + BE(|add|, 4) + add)
    else Pad16([0xFF, 0xFF] + BE(|add|, 8) + add)
  }

  lemma WholeBlocks(a: seq<byte>, b: seq<byte>)
    requires |a| % 16 == 0 && |b| % 16 == 0
    ensures |a + b| % 16 == 0
  {
  }

  function MacInput(nonce: seq<byte>, add: seq<byte>, tagLen: nat, m: seq<byte>): (r: seq<byte>)
    requires 4 <= tagLen <= 16 && 7 <= |nonce| <= 13
    ensures |r| % 16 == 0
  {
    var head: Block := FirstBlock(nonce, add != [], tagLen, |m|);
    WholeBlocks(AddBlocks(add), Pad16(m));
    WholeBlocks(head, AddBlocks(add) + Pad16(m));
    head + (AddBlocks(add) + Pad16(m))
  }

  function MacStep(aes: Aes, key: Block, y: Block, b: Block): Block {
    aes(key, XorSeq(y, b))
  }

  function CbcMac(aes: Aes, key: Block, y: Block, data: seq<byte>): Block
    requires |data| % 16 == 0
    decreases |data|
  {
    if data == [] then y else CbcMac(aes, key, MacStep(aes, key, y, data[..16]), data[16..])
  }

  // ---------- section 2.3: encryption ----------

  function CounterBlock(nonce: seq<byte>, i: nat): Block
    requires 7 <= |nonce| <= 13
  {
    [14 - |nonce|] + nonce + BE(i, 15 - |nonce|)
  }

  /** s masked with the key stream blocks i, i + 1, ... */
  function CtrFrom(aes: Aes, key: Block, nonce: seq<byte>, i: nat, s: seq<byte>): (r: seq<byte>)
    requires 7 <= |nonce| <= 13
    ensures |r| == |s|
    decreases |s|
  {
    if |s| <= 16 then XorSeq(s, aes(key, CounterBlock(nonce, i)))
    else XorSeq(s[..16], aes(key, CounterBlock(nonce, i))) + CtrFrom(aes, key, nonce, i + 1, s[16..])
  }

  function Tag(aes: Aes, key: Block, nonce: seq<byte>, add: seq<byte>, tagLen: nat, m: seq<byte>): (t: seq<byte>)
    requires 4 <= tagLen <= 16 && 7 <= |nonce| <= 13
    ensures |t| == tagLen
  {
    XorSeq(CbcMac(aes, key, ZERO_BLOCK, MacInput(nonce, add, tagLen, m)),
           aes(key, CounterBlock(nonce, 0)))[..tagLen]
  }

  datatype Sealed = Sealed(text: seq<byte>, tag: seq<byte>)

  function Encrypt(aes: Aes, key: Block, nonce: seq<byte>, add: seq<byte>, tagLen: nat, m: seq<byte>): Sealed
    requires 4 <= tagLen <= 16 && 7 <= |nonce| <= 13
  {
    Sealed(CtrFrom(aes, key, nonce, 1, m), Tag(aes, key, nonce, add, tagLen, m))
  }

  /** None when the tag does not match. */
  function Decrypt(aes: Aes, key: Block, nonce: seq<byte>, add: seq<byte>, c: Sealed): Option<seq<byte>>
    requires 4 <= |c.tag| <= 16 && 7 <= |nonce| <= 13
  {
    var m := CtrFrom(aes, key, nonce, 1, c.text);
    if Tag(aes, key, nonce, add, |c.tag|, m) == c.tag then Some(m) else None
  }

  // ---------- round trip ----------

  lemma {:induction false} CtrInvolution(aes: Aes, key: Block, nonce: seq<byte>, i: nat, s: seq<byte>)
    requires 7 <= |nonce| <= 13
    ensures CtrFrom(aes, key, nonce, i, CtrFrom(aes, key, nonce, i, s)) == s
    decreases |s|
  {
    hide Xor, CounterBlock;
    var ks := aes(key, CounterBlock(nonce, i));
    if |s| <= 16 {
      XorSeqInvolution(s, ks);
    } else {
      var c := CtrFrom(aes, key, nonce, i, s);
      XorSeqInvolution(s[..16], ks);
      CtrInvolution(aes, key, nonce, i + 1, s[16..]);
      assert c[..16] == XorSeq(s[..16], ks);
      assert c[16..] == CtrFrom(aes, key, nonce, i + 1, s[16..]);
      assert s == s[..16] + s[16..];
    }
  }

  /** Decrypting what was encrypted passes the tag check and gives the message back;
      a sealed text is accepted exactly when it is some message's encryption. */
  lemma RoundTrip(aes: Aes, key: Block, nonce: seq<byte>, add: seq<byte>, tagLen: nat, m: seq<byte>, c: Sealed)
    requires 4 <= tagLen <= 16 && 7 <= |nonce| <= 13
    requires |c.tag| == tagLen
    ensures Decrypt(aes, key, nonce, add, c) == Some(m) <==> c == Encrypt(aes, key, nonce, add, tagLen, m)
  {
    CtrInvolution(aes, key, nonce, 1, m);
    CtrInvolution(aes, key, nonce, 1, c.text);
  }

  // ---------- what is authenticated ----------

  lemma ConcatCancel(a: seq<byte>, b: seq<byte>, c: seq<byte>, d: seq<byte>)
    requires |a| == |c| && a + b == c + d
    ensures a == c && b == d
  {
    assert a == (a + b)[..|a|] && c == (c + d)[..|a|];
    assert b == (a + b)[|a|..] && d == (c + d)[|a|..];
  }

  lemma Pad16Injective(s: seq<byte>, t: seq<byte>)
    requires |s| == |t| && Pad16(s) == Pad16(t)
    ensures s == t
  {
    assert s == Pad16(s)[..|s|] && t == Pad16(t)[..|t|];
  }

  /** Equal first blocks mean equal nonces, lengths and presence of associated data. */
  lemma FirstBlockInjective(n1: seq<byte>, h1: bool, l1: nat, n2: seq<byte>, h2: bool, l2: nat, tagLen: nat)
    requires 4 <= tagLen <= 16 && 7 <= |n1| == |n2| <= 13
    requires l1 < Pow256(15 - |n1|) && l2 < Pow256(15 - |n2|)
    requires FirstBlock(n1, h1, tagLen, l1) == FirstBlock(n2, h2, tagLen, l2)
    ensures n1 == n2 && h1 == h2 && l1 == l2
  {
    var a, b := FirstBlock(n1, h1, tagLen, l1), FirstBlock(n2, h2, tagLen, l2);
    assert a[0] == Flags(h1, tagLen, 15 - |n1|) && b[0] == Flags(h2, tagLen, 15 - |n2|);
    assert a[1..1 + |n1|] == n1 && b[1..1 + |n2|] == n2;
    assert a[1 + |n1|..] == BE(l1, 15 - |n1|) && b[1 + |n2|..] == BE(l2, 15 - |n2|);
    BEInjective(l1, l2, 15 - |n1|);
  }

  lemma AddBlocksSplit(a1: seq<byte>, r1: seq<byte>, a2: seq<byte>, r2: seq<byte>)
    requires a1 != [] && a2 != [] && |a1| <= 0xFF00 && |a2| <= 0xFF00
    requires AddBlocks(a1) + r1 == AddBlocks(a2) + r2
    ensures a1 == a2 && r1 == r2
  {
    var p1, p2 := BE(|a1|, 2) + a1, BE(|a2|, 2) + a2;
    var w1, w2 := AddBlocks(a1) + r1, AddBlocks(a2) + r2;
    assert w1[..2] == BE(|a1|, 2) && w2[..2] == BE(|a2|, 2);
    assert Pow256(2) == 65536;
    BEInjective(|a1|, |a2|, 2);
    assert w1[..|p1|] == p1 && w2[..|p2|] == p2;
    assert a1 == p1[2..] && a2 == p2[2..];
    assert r1 == w1[|AddBlocks(a1)|..] && r2 == w2[|AddBlocks(a2)|..];
  }

  /** The authenticated octets determine nonce, associated data and message. */
  lemma MacInputInjective(n1: seq<byte>, a1: seq<byte>, m1: seq<byte>,
                          n2: seq<byte>, a2: seq<byte>, m2: seq<byte>, tagLen: nat)
    requires |n1| == |n2|
    requires Admissible(|n1|, |a1|, tagLen, |m1|) && Admissible(|n2|, |a2|, tagLen, |m2|)
    requires MacInput(n1, a1, tagLen, m1) == MacInput(n2, a2, tagLen, m2)
    ensures n1 == n2 && a1 == a2 && m1 == m2
  {
    var f1, f2 := FirstBlock(n1, a1 != [], tagLen, |m1|), FirstBlock(n2, a2 != [], tagLen, |m2|);
    ConcatCancel(f1, AddBlocks(a1) + Pad16(m1), f2, AddBlocks(a2) + Pad16(m2));
    FirstBlockInjective(n1, a1 != [], |m1|, n2, a2 != [], |m2|, tagLen);
    if a1 != [] {
      AddBlocksSplit(a1, Pad16(m1), a2, Pad16(m2));
    } else {
      ConcatCancel([], Pad16(m1), [], Pad16(m2));
    }
    Pad16Injective(m1, m2);
  }

  /** The code and the RFC encode accepted associated data alike except at the one
      length 0xFF00, which the RFC already prefixes with six octets. */
  lemma AddEncodingMatchesRfc(add: seq<byte>)
    requires |add| <= 0xFF00
    ensures AddBlocks(add) == RfcAddBlocks(add) <==> |add| != 0xFF00
  {
    if |add| == 0xFF00 {
      assert |BE(|add|, 2) + add| == 0xFF02 && |[0xFF, 0xFE] + BE(|add|, 4) + add| == 0xFF06;
      assert AddBlocks(add)[1] == BE(0xFF00, 2)[1] == 0;
      assert RfcAddBlocks(add)[1] == 0xFE;
    }
  }

  // ---------- counters ----------

  /** Number of key stream blocks a message of this length consumes. */
  function BlockCount(length: nat): nat { (length + 15) / 16 }

  /** Octet k of the message is masked with octet k % 16 of key stream block i + k / 16. */
  lemma {:induction false} CtrOctet(aes: Aes, key: Block, nonce: seq<byte>, i: nat, s: seq<byte>, block: nat, k: nat)
    requires 7 <= |nonce| <= 13 && k < 16 && 16 * block + k < |s|
    ensures CtrFrom(aes, key, nonce, i, s)[16 * block + k]
            == Xor(s[16 * block + k], aes(key, CounterBlock(nonce, i + block))[k])
    decreases |s|
  {
    hide Xor, CounterBlock;
    var ks := aes(key, CounterBlock(nonce, i));
    if |s| > 16 {
      var rest := CtrFrom(aes, key, nonce, i + 1, s[16..]);
      assert CtrFrom(aes, key, nonce, i, s) == XorSeq(s[..16], ks) + rest;
      if block > 0 {
        var j := 16 * (block - 1) + k;
        CtrOctet(aes, key, nonce, i + 1, s[16..], block - 1, k);
        assert s[16..][j] == s[16 + j];
        assert (XorSeq(s[..16], ks) + rest)[16 + j] == rest[j];
      }
    }
  }

  /** For every accepted length the payload counters 1..n stay inside the counter field, are pairwise
      distinct, never equal the tag's counter 0, and no counter block is the first MAC block. */
  lemma CountersNeverRepeat(nonce: seq<byte>, add: seq<byte>, tagLen: nat, length: nat, i: nat, j: nat)
    requires Admissible(|nonce|, |add|, tagLen, length)
    requires i <= BlockCount(length) && j <= BlockCount(length)
    ensures BlockCount(length) < Pow256(15 - |nonce|)
    ensures CounterBlock(nonce, i) == CounterBlock(nonce, j) <==> i == j
    ensures CounterBlock(nonce, i) != FirstBlock(nonce, add != [], tagLen, length)
  {
    var q := 15 - |nonce|;
    assert Pow256(q) >= 2 by { assert Pow256(q) == 256 * Pow256(q - 1); }
    var a, b := CounterBlock(nonce, i), CounterBlock(nonce, j);
    assert a[1 + |nonce|..] == BE(i, q) && b[1 + |nonce|..] == BE(j, q);
    if a == b { BEInjective(i, j, q); }
    assert FirstBlock(nonce, add != [], tagLen, length)[0] == Flags(add != [], tagLen, q);
    assert a[0] == q - 1;
  }
}
