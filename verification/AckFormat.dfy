// The acknowledgement PDU: what the receiver packs (mesh/transport/meshx_lower_trans.c) is what the sender unpacks.

module AckFormat {
  import opened Bytes
  import opened Mesh
  import opened IvIndex
  import opened Segments
  import opened TxNode

  datatype AckFields = AckFields(seqZero: nat, block: set<nat>)

  /** The two fields meshx_lower_trans_recv_block_ack reads, after its byte swaps. */
  function ParseAck(p: seq<byte>): AckFields
    requires |p| == 6
  {
    AckFields(FromBE(p[..2]) / 4 % SEQ_ZERO_RANGE, set i: nat | i < 32 && TestBit(FromBE(p[2..]), i))
  }

  lemma {:induction false} HighBitClear(v: nat, i: nat)
    requires v < Pow2(i)
    ensures !TestBit(v, i)
  {
    if i > 0 { HighBitClear(v / 2, i - 1); }
  }

  lemma {:induction false} AddHighBit(v: nat, j: nat, i: nat)
    requires v < Pow2(j) && i <= j
    ensures TestBit(v + Pow2(j), i) == (i == j || TestBit(v, i))
  {
    if i == 0 {
      if j > 0 { assert (v + Pow2(j)) % 2 == v % 2; }
    } else {
      assert (v + Pow2(j)) / 2 == v / 2 + Pow2(j - 1);
      AddHighBit(v / 2, j - 1, i - 1);
    }
  }

  /** Bit i of the mask says whether i is in the set. */
  lemma {:induction false} MaskBit(block: set<nat>, k: nat, i: nat)
    requires i < k
    ensures TestBit(MaskValue(block, k), i) <==> i in block
  {
    var v := MaskValue(block, k - 1);
    if k - 1 in block { AddHighBit(v, k - 1, i); }
    if i < k - 1 { MaskBit(block, k - 1, i); } else { HighBitClear(v, i); }
  }

  lemma {:induction false} OctetPowers(n: nat)
    ensures Pow2(8 * n) == Pow256(n)
  {
    if n > 0 {
      OctetPowers(n - 1);
      EightBits(8 * n - 8);
    }
  }

  lemma EightBits(k: nat)
    ensures Pow2(k + 8) == 256 * Pow2(k)
  {
    assert Pow2(k + 8) == 2 * Pow2(k + 7) && Pow2(k + 7) == 2 * Pow2(k + 6) && Pow2(k + 6) == 2 * Pow2(k + 5);
    assert Pow2(k + 5) == 2 * Pow2(k + 4) && Pow2(k + 4) == 2 * Pow2(k + 3) && Pow2(k + 3) == 2 * Pow2(k + 2);
    assert Pow2(k + 2) == 2 * Pow2(k + 1) && Pow2(k + 1) == 2 * Pow2(k);
  }

  /** Unpacking what was packed gives SeqZero and the acknowledged segments back. */
  lemma AckRoundTrip(seqZero: nat, block: set<nat>)
    requires seqZero < SEQ_ZERO_RANGE && block <= Bits(32)
    ensures ParseAck(AckPdu(seqZero, block)) == AckFields(seqZero, block)
  {
    var p, v := AckPdu(seqZero, block), MaskValue(block, 32);
    OctetPowers(4);
    assert Pow256(2) == 0x1_0000;
    FromBEofBE(seqZero * 4, 2);
    FromBEofBE(v, 4);
    hide BE, FromBE, Pow2, Pow256, MaskValue;
    assert p[..2] == BE(seqZero * 4, 2) && p[2..] == BE(v, 4);
    forall i: nat ensures i in ParseAck(p).block <==> i in block { if i < 32 { MaskBit(block, 32, i); } }
  }

  /** What an acknowledgement is on the air: an unsegmented control message with opcode 0, back to where the segments came
      from, under the transmit IV and a number drawn for it, and with the fields it was asked to carry. */
  lemma AckGoesOut(n: Node, src: nat, dst: nat, ttl: nat, seqZero: nat, block: set<nat>)
    requires NodeOk(n) && IvValid(n.iv) && AckFieldsFit(seqZero, block) && IsValidAddress(dst)
    ensures var r := SendAck(n, src, dst, ttl, seqZero, block);
            && |r.log| == |n.log| + 1 && r.counters == Counted(n, src) && r.log[|n.log|].use.OnAir?
            && var c, f := r.log[|n.log|].use.ctx, r.log[|n.log|].use.frame;
               && c.src == src && c.dst == dst && c.ttl == ttl && c.ctl && !c.seg && c.opcode == 0 && c.iv == TxIv(n.iv) && c.sqn == Next(n, src)
               && |f| == 7 && f[0] == 0 && ParseAck(f[1..]) == AckFields(seqZero, block)
  {
    AckRoundTrip(seqZero, block);
    var r := SendAck(n, src, dst, ttl, seqZero, block);
    assert r.log[|n.log|].use.frame[1..] == AckPdu(seqZero, block);
    hide AckPdu, ParseAck;
  }
}
