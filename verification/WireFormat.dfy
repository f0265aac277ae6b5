// The octets of lower transport PDUs, as sections 3.5.2.2 to 3.5.2.4 of the Mesh Profile number their bits:
// what the sender puts into each, and what the receiver makes of any octets at all.

module WireFormat {
  import opened Bytes
  import opened Mesh
  import opened Segments
  import opened TxNode
  import opened AckFormat

  lemma Bytes2(v: nat)
    requires v < 0x1_0000
    ensures BE(v, 2) == [v / 256, v % 256]
  {
    assert BE(v / 256, 1) == BE(v / 256 / 256, 0) + [v / 256 % 256];
  }

  lemma Bytes3(v: nat)
    requires v < 0x100_0000
    ensures BE(v, 3) == [v / 0x1_0000, v / 256 % 256, v % 256]
  {
    Bytes2(v / 256);
    assert v / 256 / 256 == v / 0x1_0000;
  }

  function Number(a: nat, b: nat, d: nat): nat { 0x1_0000 * a + 256 * b + d }

  lemma From2(s: seq<byte>)
    requires |s| == 2
    ensures FromBE(s) == Number(0, s[0], s[1])
  {
    assert s[..1][..0] == [] && s[..1][0] == s[0];
    assert FromBE(s[..1]) == 256 * FromBE(s[..1][..0]) + s[0];
  }

  lemma From3(s: seq<byte>)
    requires |s| == 3
    ensures FromBE(s) == Number(s[0], s[1], s[2])
  {
    From2(s[..2]);
  }

  // ---------- segments ----------

  /** SEG and AKF with AID, or SEG and the opcode; SZMIC, 13 bits of SeqZero, 5 of SegO and 5 of SegN. */
  predicate IsSegHeader(p: seq<byte>, c: MsgCtx, sego: nat, segn: nat) {
    && |p| >= 4
    && p[0] == 0x80 + (if c.ctl then c.opcode else if c.akf then 0x40 + c.aid else 0)
    && p[1] == (if !c.ctl && c.szmic then 0x80 else 0) + c.seqAuth / 64 % 128
    && p[2] == c.seqAuth % 64 * 4 + sego / 8
    && p[3] == sego % 8 * 32 + segn
  }

  lemma SegHeaderIs(c: MsgCtx, pdu: seq<byte>, i: nat)
    requires Fits(c) && i < SegCount(|pdu|, c.ctl) <= 0x20
    ensures IsSegHeader(SegPdu(c, pdu, i), c, i, SegCount(|pdu|, c.ctl) - 1)
  {
    var p, n := SegPdu(c, pdu, i), SegCount(|pdu|, c.ctl) - 1;
    var z, szmic := SeqZero(c.seqAuth), !c.ctl && c.szmic;
    FirstOctet(c);
    ZeroParts(c.seqAuth);
    MiscOctets(szmic, z, i, n);
    Bytes3(Misc(szmic, z, i, n));
    var b := BE(Misc(szmic, z, i, n), 3);
    assert p[..4] == [Header(c, true)] + b;
    hide *;
    assert p[0] == p[..4][0] && p[1] == p[..4][1] && p[2] == p[..4][2] && p[3] == p[..4][3];
  }

  /** Twelve octets travel in each access segment and eight in each control segment, in order, behind the four of the
      header; there are no more segments than that takes. */
  lemma SegmentOctet(c: MsgCtx, pdu: seq<byte>, k: nat)
    requires k < |pdu|
    ensures var i, at := if c.ctl then k / 8 else k / 12, if c.ctl then k % 8 else k % 12;
            && i < SegCount(|pdu|, c.ctl) && 4 + at < |SegPdu(c, pdu, i)| && SegPdu(c, pdu, i)[4 + at] == pdu[k]
            && (k == |pdu| - 1 ==> i + 1 == SegCount(|pdu|, c.ctl))
  {
    hide Header, Misc, BE;
  }

  lemma FirstOctet(c: MsgCtx)
    requires Fits(c)
    ensures Header(c, true) == 0x80 + (if c.ctl then c.opcode else if c.akf then 0x40 + c.aid else 0)
  {
  }

  lemma ZeroParts(x: nat)
    ensures SeqZero(x) < 0x2000 && SeqZero(x) / 64 == x / 64 % 128 && SeqZero(x) % 64 == x % 64
  {
    assert x == x / 0x2000 * 0x2000 + SeqZero(x);
  }

  lemma MiscOctets(szmic: bool, z: nat, sego: nat, segn: nat)
    requires z < 0x2000 && sego < 0x20 && segn < 0x20
    ensures var m := Misc(szmic, z, sego, segn);
            && m < 0x100_0000 && m / 0x1_0000 == 0x80 * Bit(szmic) + z / 64
            && m / 256 % 256 == z % 64 * 4 + sego / 8 && m % 256 == sego % 8 * 32 + segn
  {
    Digits(Misc(szmic, z, sego, segn), 0x80 * Bit(szmic) + z / 64, z % 64 * 4 + sego / 8, sego % 8 * 32 + segn);
  }

  lemma Digits(m: nat, a: nat, b: nat, d: nat)
    requires m == 0x1_0000 * a + 256 * b + d && a < 256 && b < 256 && d < 256
    ensures m < 0x100_0000 && m / 0x1_0000 == a && m / 256 % 256 == b && m % 256 == d
  {
    assert m / 256 == 256 * a + b;
  }

  function SeqZeroIn(high: nat, low: nat): nat { high % 128 * 64 + low / 4 }

  function SegOIn(high: nat, low: nat): nat { high % 4 * 8 + low / 32 }

  /** What the receiver reads, from any four octets. */
  lemma SegHeadReads(p: seq<byte>)
    requires |p| >= 4
    ensures var h := ParseHead(p);
            && h.seg == TestBit(p[0], 7) && h.opcode == p[0] % 128 && h.akf == TestBit(p[0], 6) && h.aid == p[0] % 64
            && h.szmic == TestBit(p[1], 7) && h.seqZero == SeqZeroIn(p[1], p[2])
            && h.sego == SegOIn(p[2], p[3]) && h.segn == p[3] % 32
  {
    From3(p[1..4]);
    TopBits(p[0]);
    TopBits(p[1]);
    HeadFields(p[1], p[2], p[3]);
  }

  lemma HeadFields(a: nat, b: nat, d: nat)
    requires a < 256 && b < 256 && d < 256
    ensures var m := Number(a, b, d);
            && (m / 0x80_0000 % 2 == 1 <==> a >= 128) && m / 0x400 % 0x2000 == SeqZeroIn(a, b)
            && m / 0x20 % 0x20 == SegOIn(b, d) && m % 0x20 == d % 32
  {
    var m := Number(a, b, d);
    var a1, a0, b1, b0, d1, d0 := a / 128, a % 128, b / 4, b % 4, d / 32, d % 32;
    assert a == a1 * 128 + a0 && b == b1 * 4 + b0 && d == d1 * 32 + d0;
    assert m / 0x80_0000 == a1;
    assert m / 0x400 == 0x2000 * a1 + (64 * a0 + b1);
    assert m / 0x20 == 0x20 * (64 * a + b1) + (8 * b0 + d1);
  }

  lemma TopBits(a: byte)
    ensures TestBit(a, 7) == (a >= 128) && TestBit(a, 6) == (a / 64 % 2 == 1)
  {
    assert Pow2(6) == 64 && Pow2(7) == 128;
    PlaceBit(a / 128, a % 128, 7, 7);
    PlaceBit(a / 64, a % 64, 6, 6);
  }

  /** The bits of v above the k bits of a. */
  lemma {:induction false} PlaceBit(v: nat, a: nat, k: nat, i: nat)
    requires a < Pow2(k)
    ensures TestBit(Pow2(k) * v + a, i) == if i < k then TestBit(a, i) else TestBit(v, i - k)
  {
    if k > 0 {
      var w := Pow2(k - 1) * v;
      assert Pow2(k) * v == 2 * w;
      assert (2 * w + a) / 2 == w + a / 2 && (2 * w + a) % 2 == a % 2;
      if i > 0 { PlaceBit(v, a / 2, k - 1, i - 1); }
    }
  }

  // ---------- acknowledgements ----------

  /** OBO is clear, 13 bits of SeqZero, two spare bits; then segment 0 is the lowest bit of the last octet. */
  predicate IsAckPdu(p: seq<byte>, seqZero: nat, block: set<nat>) {
    && |p| == 6 && p[0] == seqZero / 64 && p[1] == seqZero % 64 * 4
    && forall i :: 0 <= i < 32 ==> (BlockBit(p, i) <==> i in block)
  }

  predicate BlockBit(p: seq<byte>, i: nat)
    requires |p| == 6 && i < 32
  {
    TestBit(p[5 - i / 8], i % 8)
  }

  /** What the sender of the segments reads, from any six octets. */
  lemma AckReads(p: seq<byte>)
    requires |p| == 6
    ensures var a := ParseAck(p);
            && a.seqZero == SeqZeroIn(p[0], p[1])
            && forall i :: 0 <= i < 32 ==> (i in a.block <==> BlockBit(p, i))
  {
    AckZeroReads(p);
    hide *;
    forall i | 0 <= i < 32 ensures i in ParseAck(p).block <==> BlockBit(p, i) { AckBitReads(p, i); }
  }

  lemma AckZeroReads(p: seq<byte>)
    requires |p| == 6
    ensures ParseAck(p).seqZero == SeqZeroIn(p[0], p[1])
  {
    From2(p[..2]);
    AckField(p[0], p[1]);
    hide FromBE, SeqZeroIn, TestBit;
  }

  lemma AckBitReads(p: seq<byte>, i: nat)
    requires |p| == 6 && i < 32
    ensures i in ParseAck(p).block <==> BlockBit(p, i)
  {
    BitOf(p[2..], i);
    hide FromBE, TestBit;
  }

  lemma AckField(a: nat, b: nat)
    requires b < 256
    ensures (256 * a + b) / 4 % 0x2000 == SeqZeroIn(a, b)
  {
    assert (256 * a + b) / 4 == 64 * a + b / 4;
    assert a == a / 128 * 128 + a % 128;
  }

  /** Bit i of a big-endian number is in the octet i / 8 from the end. */
  lemma {:induction false} BitOf(s: seq<byte>, i: nat)
    requires i < 8 * |s|
    ensures TestBit(FromBE(s), i) == TestBit(s[|s| - 1 - i / 8], i % 8)
  {
    var k := |s| - 1;
    assert Pow2(8) == 256;
    PlaceBit(FromBE(s[..k]), s[k], 8, i);
    if i >= 8 { BitOf(s[..k], i - 8); }
  }

  lemma AckPduIs(seqZero: nat, block: set<nat>)
    requires seqZero < SEQ_ZERO_RANGE && block <= Bits(32)
    ensures IsAckPdu(AckPdu(seqZero, block), seqZero, block)
  {
    var p := AckPdu(seqZero, block);
    Bytes2(seqZero * 4);
    AckReads(p);
    AckRoundTrip(seqZero, block);
    hide BE, FromBE;
    assert p[..2] == BE(seqZero * 4, 2);
    assert p[0] == p[..2][0] && p[1] == p[..2][1];
    assert seqZero * 4 / 256 == seqZero / 64 && seqZero * 4 % 256 == seqZero % 64 * 4;
  }

  // ---------- exclusive or ----------

  /** Bit by bit. */
  lemma {:induction false} XorBit(a: nat, b: nat, n: nat, j: nat)
    requires j < n
    ensures TestBit(XorBits(a, b, n), j) == (TestBit(a, j) != TestBit(b, j))
  {
    var x := XorBits(a, b, n);
    assert x / 2 == XorBits(a / 2, b / 2, n - 1) && x % 2 == (if a % 2 == b % 2 then 0 else 1);
    if j > 0 { XorBit(a / 2, b / 2, n - 1, j - 1); }
  }
}
