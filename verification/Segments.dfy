// Layout of a segmented lower transport PDU and the SeqAuth arithmetic
// (mesh/transport/meshx_lower_trans.c).

module Segments {
  import opened Bytes
  import opened Mesh

  const SEQ_ZERO_RANGE: nat := 0x2000
  const MAX_SEGMENTS: nat := 0x1F

  function SegSize(ctl: bool): nat { if ctl then 8 else 12 }

  function SegCount(len: nat, ctl: bool): nat { (len + SegSize(ctl) - 1) / SegSize(ctl) }

  function Min(a: int, b: int): int { if a < b then a else b }

  // ---------- SeqAuth ----------

  /** MESHX_LOWER_TRANS_IS_SEQ_AUTH_VALID */
  predicate InWindow(sqn: nat, seqAuth: nat) { seqAuth <= sqn < seqAuth + SEQ_ZERO_RANGE }

  function SeqZero(sqn: nat): nat { sqn % SEQ_ZERO_RANGE }

  /** MESHX_LOWER_TRANS_SEQ_AUTH, stored into a 24-bit field. */
  function RecoverSeqAuth(seqZero: nat, sqn: nat): (r: nat)
    ensures r <= SEQ_MAX
  {
    (seqZero + sqn - sqn % SEQ_ZERO_RANGE - (if seqZero > sqn % SEQ_ZERO_RANGE then SEQ_ZERO_RANGE else 0)) % 0x100_0000
  }

  /** The receiver's macro gives back the sender's SeqAuth exactly when the segment's sequence number
      is less than 0x2000 ahead of it in the 24-bit number circle. */
  lemma SeqAuthRecovery(seqAuth: nat, sqn: nat)
    requires seqAuth <= SEQ_MAX && sqn <= SEQ_MAX
    ensures RecoverSeqAuth(SeqZero(seqAuth), sqn) == seqAuth <==> (sqn - seqAuth) % 0x100_0000 < SEQ_ZERO_RANGE
  {
    var z, s := seqAuth % 0x2000, sqn % 0x2000;
    var a, b := seqAuth / 0x2000, sqn / 0x2000;
    assert seqAuth == 0x2000 * a + z && sqn == 0x2000 * b + s;
    assert a < 0x800 && b < 0x800;
    var carry := if z > s then 1 else 0;
    assert RecoverSeqAuth(z, sqn) == (0x2000 * (b - carry) + z) % 0x100_0000;
    WrapBlocks(b - carry, z);
    WrapBlocks(b - a - carry, s - z + carry * 0x2000);
    assert sqn - seqAuth == 0x2000 * (b - a - carry) + (s - z + carry * 0x2000);
  }

  /** What the sender's window check is for. */
  lemma WindowRecovers(seqAuth: nat, sqn: nat)
    requires sqn <= SEQ_MAX && InWindow(sqn, seqAuth)
    ensures RecoverSeqAuth(SeqZero(seqAuth), sqn) == seqAuth
  {
    SeqAuthRecovery(seqAuth, sqn);
  }

  lemma WrapBlocks(k: int, r: nat)
    requires -0x800 <= k < 0x800 && r < 0x2000
    ensures (0x2000 * k + r) % 0x100_0000 == 0x2000 * (if k < 0 then k + 0x800 else k) + r
  {
  }

  // ---------- segment PDUs ----------

  /** Octets of segment i. */
  function SegData(pdu: seq<byte>, ctl: bool, i: nat): seq<byte>
    requires i < SegCount(|pdu|, ctl)
  {
    pdu[i * SegSize(ctl)..Min((i + 1) * SegSize(ctl), |pdu|)]
  }

  /** First octet; assignments to the bit fields keep their low bits. */
  function Header(c: MsgCtx, seg: bool): byte {
    (if c.ctl then c.opcode % 128 else (if c.akf then c.aid % 64 else 0) + 64 * Bit(c.akf)) + 128 * Bit(seg)
  }

  function Misc(szmic: bool, seqZero: nat, sego: nat, segn: nat): nat {
    Bit(szmic) * 0x80_0000 + seqZero * 0x400 + sego * 0x20 + segn
  }

  function SegPdu(c: MsgCtx, pdu: seq<byte>, i: nat): (r: seq<byte>)
    requires i < SegCount(|pdu|, c.ctl)
    ensures |r| == 4 + |SegData(pdu, c.ctl, i)|
  {
    [Header(c, true)]
    + BE(Misc(!c.ctl && c.szmic, SeqZero(c.seqAuth), i, SegCount(|pdu|, c.ctl) - 1), 3)
    + SegData(pdu, c.ctl, i)
  }

  datatype SegHead = SegHead(seg: bool, opcode: nat, akf: bool, aid: nat, szmic: bool, seqZero: nat, sego: nat, segn: nat)

  /** The bit fields the receiver reads; control and access headers overlay each other. */
  function ParseHead(p: seq<byte>): SegHead
    requires |p| >= 4
  {
    var m := FromBE(p[1..4]);
    SegHead(p[0] >= 128, p[0] % 128, p[0] / 64 % 2 == 1, p[0] % 64,
            m / 0x80_0000 % 2 == 1, m / 0x400 % 0x2000, m / 0x20 % 0x20, m % 0x20)
  }

  lemma MiscRoundTrip(szmic: bool, seqZero: nat, sego: nat, segn: nat)
    requires seqZero < 0x2000 && sego < 0x20 && segn < 0x20
    ensures var m := Misc(szmic, seqZero, sego, segn);
            && m < Pow256(3) && m / 0x80_0000 % 2 == Bit(szmic) && m / 0x400 % 0x2000 == seqZero
            && m / 0x20 % 0x20 == sego && m % 0x20 == segn
  {
    assert Pow256(3) == 0x100_0000;
  }

  lemma HeaderParses(c: MsgCtx)
    requires c.aid < 64 && c.opcode < 128
    ensures var h := Header(c, true);
            && h >= 128 && (c.ctl ==> h % 128 == c.opcode)
            && (!c.ctl ==> (h / 64 % 2 == 1 <==> c.akf) && h % 64 == (if c.akf then c.aid else 0))
  {
  }

  /** Parsing what the sender packed gives the packed fields back. */
  lemma SegPduParses(c: MsgCtx, pdu: seq<byte>, i: nat)
    requires Fits(c) && i < SegCount(|pdu|, c.ctl) <= 0x20
    ensures var h := ParseHead(SegPdu(c, pdu, i));
            && h.seg && h.seqZero == SeqZero(c.seqAuth) && h.sego == i && h.segn == SegCount(|pdu|, c.ctl) - 1
            && (c.ctl ==> h.opcode == c.opcode)
            && (!c.ctl ==> h.akf == c.akf && h.aid == (if c.akf then c.aid else 0) && h.szmic == c.szmic)
    ensures SegPdu(c, pdu, i)[4..] == SegData(pdu, c.ctl, i)
  {
    var szmic, segn := !c.ctl && c.szmic, SegCount(|pdu|, c.ctl) - 1;
    var m := Misc(szmic, SeqZero(c.seqAuth), i, segn);
    MiscRoundTrip(szmic, SeqZero(c.seqAuth), i, segn);
    FromBEofBE(m, 3);
    HeaderParses(c);
    assert SegPdu(c, pdu, i)[1..4] == BE(m, 3);
    assert SegPdu(c, pdu, i)[0] == Header(c, true);
  }
}
