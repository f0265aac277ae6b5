// The octets of the three nonces and of the privacy block, read back field by field as sections 3.8.5 and 3.8.7.3 of
// the Mesh Profile list them, and the octets of a packet and of an encrypted message in those terms.

module NonceFormat {
  import opened Bytes
  import opened Mesh
  import opened CcmSpec
  import opened Network
  import UpperTransport

  lemma SameNumber(s: seq<byte>, t: seq<byte>)
    requires |s| == |t|
    ensures FromBE(s) == FromBE(t) <==> s == t
  {
    BEofFromBE(s);
    BEofFromBE(t);
  }

  // ---------- the network nonce ----------

  /** Type 0, the CTL and TTL octet, the sequence number, the source, two zero octets and the IV index. */
  predicate IsNetworkNonce(n: seq<byte>, c: MsgCtx) {
    && |n| == 13 && n[0] == 0 && n[1] == c.ttl + 128 * Bit(c.ctl) && FromBE(n[2..5]) == c.sqn && FromBE(n[5..7]) == c.src
    && n[7] == n[8] == 0 && FromBE(n[9..]) == c.iv
  }

  lemma NonceParts(p: NetPdu, iv: nat)
    requires iv < 0x1_0000_0000
    ensures var n := Nonce(p, iv); n[0] == 0 && n[1..7] == p[1..7] && n[7] == n[8] == 0 && FromBE(n[9..]) == iv
  {
    assert Pow256(4) == 0x1_0000_0000;
    FromBEofBE(iv, 4);
    hide BE, FromBE, Pow256;
    var n := Nonce(p, iv);
    assert n[9..] == BE(iv, 4);
    assert p[1..7] == [p[1]] + p[2..5] + p[5..7];
  }

  /** Two nonces are the same if and only if octets 1 to 6 of the packets and the IV indexes are. */
  lemma NonceIff(p: NetPdu, q: NetPdu, iv: nat, jv: nat)
    requires iv < 0x1_0000_0000 && jv < 0x1_0000_0000
    ensures Nonce(p, iv) == Nonce(q, jv) <==> iv == jv && p[1..7] == q[1..7]
  {
    NonceParts(p, iv);
    NonceParts(q, jv);
    hide FromBE, BE;
    HeaderParts(p);
    HeaderParts(q);
  }

  lemma HeaderParts(p: seq<byte>)
    requires |p| >= 7
    ensures p[1] == p[1..7][0] && p[2..5] == p[1..7][1..4] && p[5..7] == p[1..7][4..6]
  {
    SliceOfSlice(p, 1, 7, 1, 4);
    SliceOfSlice(p, 1, 7, 4, 6);
  }

  lemma SliceOfSlice(p: seq<byte>, a: nat, b: nat, i: nat, j: nat)
    requires a <= b <= |p| && i <= j <= b - a
    ensures p[a..b][i..j] == p[a + i..a + j]
  {
    var s, t := p[a..b][i..j], p[a + i..a + j];
    assert |s| == |t| && forall k :: 0 <= k < |s| ==> s[k] == t[k];
  }

  /** The nonce of a packet about to be sent is the one the profile describes, and no other octets are. */
  lemma PlaintextNonceIs(nid: nat, c: MsgCtx, pdu: seq<byte>, n: seq<byte>)
    requires nid < 128 && Fits(c) && |pdu| <= TRANS_PDU_MAX
    ensures n == Nonce(Plaintext(nid, c, pdu), c.iv) <==> IsNetworkNonce(n, c)
  {
    var p := Plaintext(nid, c, pdu);
    var k := Nonce(p, c.iv);
    HeaderParses(nid, c, pdu);
    NonceParts(p, c.iv);
    hide FromBE, BE, Plaintext, Nonce;
    HeaderParts(k);
    HeaderParts(p);
    assert IsNetworkNonce(k, c);
    if IsNetworkNonce(n, c) { SameNetworkNonce(n, k, c); }
  }

  lemma SameNetworkNonce(n: seq<byte>, k: seq<byte>, c: MsgCtx)
    requires IsNetworkNonce(n, c) && IsNetworkNonce(k, c)
    ensures n == k
  {
    SameNumber(n[2..5], k[2..5]);
    SameNumber(n[5..7], k[5..7]);
    SameNumber(n[9..], k[9..]);
    hide FromBE;
    assert n == n[..2] + n[2..5] + n[5..7] + n[7..9] + n[9..] && k == k[..2] + k[2..5] + k[5..7] + k[7..9] + k[9..];
  }

  // ---------- application and device nonces ----------

  /** Type 1 or 2, the ASZMIC octet, SeqAuth, source, destination and IV index. */
  predicate IsAccessNonce(n: seq<byte>, c: MsgCtx) {
    && |n| == 13 && n[0] == (if c.akf then 1 else 2) && n[1] == 128 * Bit(c.szmic) && FromBE(n[2..5]) == c.seqAuth
    && FromBE(n[5..7]) == c.src && FromBE(n[7..9]) == c.dst && FromBE(n[9..]) == c.iv
  }

  lemma SameAccessNonce(n: seq<byte>, k: seq<byte>, c: MsgCtx)
    requires IsAccessNonce(n, c) && IsAccessNonce(k, c)
    ensures n == k
  {
    SameNumber(n[2..5], k[2..5]);
    SameNumber(n[5..7], k[5..7]);
    SameNumber(n[7..9], k[7..9]);
    SameNumber(n[9..], k[9..]);
    hide FromBE;
    assert n == n[..2] + n[2..5] + n[5..7] + n[7..9] + n[9..] && k == k[..2] + k[2..5] + k[5..7] + k[7..9] + k[9..];
  }

  lemma AccessNonceReads(c: MsgCtx)
    requires Fits(c)
    ensures IsAccessNonce(UpperTransport.AccessNonce(c), c)
  {
    assert Pow256(2) == 0x1_0000 && Pow256(3) == 0x100_0000 && Pow256(4) == 0x1_0000_0000;
    FromBEofBE(c.seqAuth, 3);
    FromBEofBE(c.src, 2);
    FromBEofBE(c.dst, 2);
    FromBEofBE(c.iv, 4);
    hide BE, FromBE, Pow256;
    var n := UpperTransport.AccessNonce(c);
    assert n[2..5] == BE(c.seqAuth, 3) && n[5..7] == BE(c.src, 2) && n[7..9] == BE(c.dst, 2) && n[9..] == BE(c.iv, 4);
  }

  lemma AccessNonceIs(c: MsgCtx, n: seq<byte>)
    requires Fits(c)
    ensures n == UpperTransport.AccessNonce(c) <==> IsAccessNonce(n, c)
  {
    AccessNonceReads(c);
    if IsAccessNonce(n, c) { SameAccessNonce(n, UpperTransport.AccessNonce(c), c); }
  }

  /** Two messages have one nonce if and only if they agree in key kind, MIC size, SeqAuth, source, destination and
      IV index. */
  lemma AccessNonceIff(c: MsgCtx, d: MsgCtx)
    requires Fits(c) && Fits(d)
    ensures UpperTransport.AccessNonce(c) == UpperTransport.AccessNonce(d) <==>
              c.akf == d.akf && c.szmic == d.szmic && c.seqAuth == d.seqAuth && c.src == d.src && c.dst == d.dst && c.iv == d.iv
  {
    AccessNonceReads(c);
    AccessNonceReads(d);
    hide FromBE;
    if c.akf == d.akf && c.szmic == d.szmic && c.seqAuth == d.seqAuth && c.src == d.src && c.dst == d.dst && c.iv == d.iv {
      SameAccessNonce(UpperTransport.AccessNonce(c), UpperTransport.AccessNonce(d), c);
    }
  }

  /** No octets are nonces of two kinds: network, application and device nonces differ in their first octet. */
  lemma NonceKindsApart(n: seq<byte>, c: MsgCtx, d: MsgCtx, e: MsgCtx)
    requires c.akf && !d.akf
    ensures !(IsNetworkNonce(n, e) && IsAccessNonce(n, c)) && !(IsNetworkNonce(n, e) && IsAccessNonce(n, d))
    ensures !(IsAccessNonce(n, c) && IsAccessNonce(n, d))
  {
    hide FromBE;
  }

  // ---------- a packet, octet by octet ----------

  /** Five zero octets, the IV index, and the first seven encrypted octets of packet p. */
  predicate IsPrivacyBlock(b: Block, iv: nat, p: NetPdu) { b[..5] == Zeros(5) && FromBE(b[5..9]) == iv && b[9..] == p[7..14] }

  /** The six octets that are obfuscated: CTL and TTL, sequence number and source. */
  predicate IsMaskedHeader(h: seq<byte>, c: MsgCtx) {
    |h| == 6 && h[0] == c.ttl + 128 * Bit(c.ctl) && FromBE(h[1..4]) == c.sqn && FromBE(h[4..]) == c.src
  }

  lemma PrivacyBlockIs(b: Block, p: NetPdu, iv: nat)
    requires iv < 0x1_0000_0000
    ensures b == PrivacyPlaintext(p, iv) <==> IsPrivacyBlock(b, iv, p)
  {
    assert Pow256(4) == 0x1_0000_0000;
    FromBEofBE(iv, 4);
    hide BE, FromBE, Pow256;
    var k := PrivacyPlaintext(p, iv);
    assert k[..5] == Zeros(5) && k[5..9] == BE(iv, 4) && k[9..] == p[7..14];
    if IsPrivacyBlock(b, iv, p) {
      SameNumber(b[5..9], k[5..9]);
      assert b == b[..5] + b[5..9] + b[9..] && k == k[..5] + k[5..9] + k[9..];
    }
  }

  lemma MaskedHeaderIs(nid: nat, c: MsgCtx, pdu: seq<byte>, h: seq<byte>)
    requires nid < 128 && Fits(c) && |pdu| <= TRANS_PDU_MAX && IsMaskedHeader(h, c)
    ensures h == Plaintext(nid, c, pdu)[1..7]
  {
    HeaderParses(nid, c, pdu);
    var p := Plaintext(nid, c, pdu);
    SameNumber(h[1..4], p[2..5]);
    SameNumber(h[4..], p[5..7]);
    hide FromBE, Plaintext;
    assert h == [h[0]] + h[1..4] + h[4..] && p[1..7] == [p[1]] + p[2..5] + p[5..7];
  }

  /** Everything on the air: octet 0 is IVI and NID; octets 1 to 6 are the header masked with the block cipher of the
      privacy block under the privacy key; the rest is destination and transport PDU as CCM seals them under the
      encryption key and the network nonce. */
  lemma PacketMeetsProfile(aes: Aes, key: NetKey, c: MsgCtx, pdu: seq<byte>, n: seq<byte>, h: seq<byte>, b: Block, dst: seq<byte>)
    requires key.nid < 128 && Fits(c) && |pdu| + MicLen(c.ctl) <= TRANS_PDU_MAX
    requires IsNetworkNonce(n, c) && IsMaskedHeader(h, c) && IsPrivacyBlock(b, c.iv, Packet(aes, key, c, pdu))
    requires |dst| == 2 && FromBE(dst) == c.dst
    ensures var p, e := Packet(aes, key, c, pdu), Encrypt(aes, key.encryption, n, [], if c.ctl then 8 else 4, dst + pdu);
            && p[0] == key.nid + 128 * (c.iv % 2) && p[1..7] == XorSeq(h, aes(key.privacy, b))
            && p[7..9 + |pdu|] == e.text && p[9 + |pdu|..PacketLen(c, pdu)] == e.tag
  {
    SealedOctets(aes, key, c, pdu, n, dst);
    MaskedOctets(aes, key, c, pdu, h, b);
    hide *;
  }

  lemma SealedOctets(aes: Aes, key: NetKey, c: MsgCtx, pdu: seq<byte>, n: seq<byte>, dst: seq<byte>)
    requires key.nid < 128 && Fits(c) && |pdu| + MicLen(c.ctl) <= TRANS_PDU_MAX && IsNetworkNonce(n, c)
    requires |dst| == 2 && FromBE(dst) == c.dst
    ensures var p, e := Packet(aes, key, c, pdu), Encrypt(aes, key.encryption, n, [], MicLen(c.ctl), dst + pdu);
            p[7..9 + |pdu|] == e.text && p[9 + |pdu|..PacketLen(c, pdu)] == e.tag
  {
    var q := Plaintext(key.nid, c, pdu);
    PlaintextCtl(key.nid, c, pdu);
    var e, o := Encrypted(aes, key, q, |pdu|, c.iv), Packet(aes, key, c, pdu);
    PlaintextNonceIs(key.nid, c, pdu, n);
    EncryptedParts(aes, key, q, |pdu|, c.iv);
    ObfuscationInvolution(aes, key, e, c.iv);
    HeaderParses(key.nid, c, pdu);
    SameNumber(dst, q[7..9]);
    hide FromBE, Encrypt, Plaintext, Nonce, Encrypted, Obfuscated, IsNetworkNonce, Ctl;
    assert q[7..9 + |pdu|] == dst + pdu by { Halves(q, |pdu|); }
    SameRest(o, e, |pdu|, MicLen(c.ctl));
  }

  lemma Halves(q: seq<byte>, len: nat)
    requires 9 + len <= |q|
    ensures q[7..9 + len] == q[7..9] + q[9..9 + len]
  {
  }

  lemma SameRest(o: seq<byte>, e: seq<byte>, len: nat, mic: nat)
    requires |o| == |e| == 29 && 9 + len + mic <= 29 && o[7..] == e[7..]
    ensures o[7..9 + len] == e[7..9 + len] && o[9 + len..9 + len + mic] == e[9 + len..9 + len + mic]
  {
    assert o[7..9 + len] == o[7..][..2 + len] && e[7..9 + len] == e[7..][..2 + len];
    assert o[9 + len..9 + len + mic] == o[7..][2 + len..2 + len + mic] && e[9 + len..9 + len + mic] == e[7..][2 + len..2 + len + mic];
  }

  lemma MaskedOctets(aes: Aes, key: NetKey, c: MsgCtx, pdu: seq<byte>, h: seq<byte>, b: Block)
    requires key.nid < 128 && Fits(c) && |pdu| + MicLen(c.ctl) <= TRANS_PDU_MAX
    requires IsMaskedHeader(h, c) && IsPrivacyBlock(b, c.iv, Packet(aes, key, c, pdu))
    ensures var p := Packet(aes, key, c, pdu); p[0] == key.nid + 128 * (c.iv % 2) && p[1..7] == XorSeq(h, aes(key.privacy, b))
  {
    var q := Plaintext(key.nid, c, pdu);
    PlaintextCtl(key.nid, c, pdu);
    var e, o := Encrypted(aes, key, q, |pdu|, c.iv), Packet(aes, key, c, pdu);
    MaskedHeaderIs(key.nid, c, pdu, h);
    EncryptedParts(aes, key, q, |pdu|, c.iv);
    ObfuscationInvolution(aes, key, e, c.iv);
    PacketFirst(aes, key, c, pdu);
    PrivacyBlockIs(b, o, c.iv);
    hide FromBE, Encrypt, Plaintext, Nonce, Xor, PrivacyPlaintext, Encrypted, IsPrivacyBlock;
    MaskedParts(aes, key, e, o, c.iv);
    assert e[1..7] == e[..7][1..7] && q[1..7] == q[..7][1..7];
  }

  lemma MaskedParts(aes: Aes, key: NetKey, e: NetPdu, o: NetPdu, iv: nat)
    requires o == Obfuscated(aes, key, e, iv) && o[7..] == e[7..]
    ensures o[1..7] == XorSeq(e[1..7], aes(key.privacy, PrivacyPlaintext(o, iv)))
  {
    assert o[7..14] == o[7..][..7] && e[7..14] == e[7..][..7];
    hide Xor;
  }

  // ---------- an encrypted access message ----------

  /** The message, as far as its 8-bit length goes, sealed by CCM under the key and the application or device nonce; what
      is beyond goes plain before the MIC. */
  lemma UpperPduMeetsProfile(aes: Aes, key: Block, c: MsgCtx, m: seq<byte>, n: seq<byte>)
    requires Fits(c) && IsAccessNonce(n, c)
    ensures var k := |m| % 256;
            var e := Encrypt(aes, key, n, [], if c.szmic then 8 else 4, m[..k]);
            UpperTransport.UpperPdu(aes, key, c, m) == e.text + m[k..] + e.tag
  {
    AccessNonceIs(c, n);
    hide Encrypt, UpperTransport.AccessNonce, FromBE;
  }
}
