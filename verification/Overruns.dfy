// Inputs on which the receive routine leaves a reassembly buffer, each through the routine from an idle pool.

module Overruns {
  import opened Bytes
  import opened Mesh
  import opened Segments
  import opened RxNode
  import opened RxTight
  import opened RxTraffic

  /** Nothing is being reassembled and the next slot is as initialisation leaves it. */
  predicate IdlePool(p: RxPool) {
    PoolOk(p) && p.active == [] && p.idle != [] && Leftover(p, p.idle[0]).pduLen == 0 && Leftover(p, p.idle[0]).notReceived == {}
  }

  lemma ZeroMisc(pdu: seq<byte>)
    requires |pdu| >= 4 && pdu[0] == 0x80 && pdu[1] == pdu[2] == pdu[3] == 0
    ensures var h := ParseHead(pdu); h.seg && h.sego == 0 && h.segn == 0
  {
    var m := pdu[1..4];
    assert FromBE(m) == 0 by {
      assert m[..2][..1][..0] == [] && FromBE(m[..2][..1]) == 0 && FromBE(m[..2]) == 0;
    }
  }

  /** The smallest such input: an authenticated access PDU of three octets or fewer whose buffer reads as the only
      segment of a message. The copy is of 65532 octets or more. */
  lemma ShortSegmentOverruns(p: RxPool, c0: MsgCtx, pdu: seq<byte>, len: nat)
    requires IdlePool(p) && !c0.ctl && |pdu| == 20 && len <= 3 && pdu[0] == 0x80 && pdu[1] == pdu[2] == pdu[3] == 0
    ensures Receive(p, c0, pdu, len, true).fault
  {
    ZeroMisc(pdu);
    var h, c := ParseHead(pdu), Head(c0, pdu);
    ReceiveSteps(p, c0, pdu, len, true);
    RefilledTask(Leftover(p, p.idle[0]), c, 1);
    var r := Request(p, c, 1);
    assert r.pool.tasks[p.idle[0]] == Refilled(Leftover(p, p.idle[0]), c, 1);
    hide ParseHead, HeadCtx;
    ShortOverruns(r.pool, p.idle[0], c, h.sego, 0, Payload(pdu, len, false, h.sego, 0), len, true);
  }

  // ---------- control and access segments in one task ----------

  /** Segment k of a message, in the network layer's buffer. */
  function Arrival(c: MsgCtx, pdu: seq<byte>, k: nat): RxEvent
    requires k < SegCount(|pdu|, c.ctl)
  {
    var f := SegPdu(c, pdu, k);
    Arrives(NetCtx(c), f + seq(if |f| <= 20 then 20 - |f| else 0, _ => 0), |f|, true)
  }

  /** Two messages of one source under one IV index and SeqAuth: three control and two access segments. */
  predicate Clash(a: MsgCtx, b: MsgCtx, m: seq<byte>, n: seq<byte>) {
    && Fits(a) && Fits(b) && a.ctl && !b.ctl && !b.akf && !b.szmic && |m| == 24 && |n| == 24
    && a.src == b.src && a.iv == b.iv && a.sqn == b.sqn == a.seqAuth == b.seqAuth
  }

  lemma ArrivalReads(c: MsgCtx, pdu: seq<byte>, k: nat)
    requires Fits(c) && |pdu| == 24 && k < SegCount(24, c.ctl) && c.sqn == c.seqAuth && (c.ctl || (!c.akf && !c.szmic))
    ensures var e := Arrival(c, pdu, k);
            && |e.p| == 20 && e.len == 4 + SegSize(c.ctl) && ParseHead(e.p).sego == k && ParseHead(e.p).segn == SegCount(24, c.ctl) - 1
            && Head(e.c, e.p) == NetCtx(c).(seqAuth := c.seqAuth, opcode := if c.ctl then c.opcode else 0)
  {
    var f, e := SegPdu(c, pdu, k), Arrival(c, pdu, k);
    assert |SegData(pdu, c.ctl, k)| == SegSize(c.ctl);
    SegPduParses(c, pdu, k);
    WindowRecovers(c.seqAuth, c.sqn);
    hide SegPdu, SegData;
    assert e.p[0] == f[0] && e.p[1..4] == f[1..4];
  }

  /** Slot s is the only active one. */
  lemma OnlySlotFound(p: RxPool, s: nat, c: MsgCtx, count: nat)
    requires PoolOk(p) && p.active == [s] && s < |p.tasks| && p.tasks[s].ctx.src == c.src && AuthKey(p.tasks[s].ctx) == AuthKey(c)
    ensures Request(p, c, count) == Requested(p, Some(s), false)
  {
  }

  /** The task in slot s of a pool with nothing else: its missing segments and its length. */
  predicate Holding(p: RxPool, s: nat, a: MsgCtx, missing: set<nat>, len: nat) {
    && PoolOk(p) && p.active == [s] && s < |p.tasks| && p.tasks[s].ctx == NetCtx(a).(seqAuth := a.seqAuth, opcode := a.opcode)
    && |p.tasks[s].buf| == 24 && p.tasks[s].notReceived == missing && p.tasks[s].pduLen == len
  }

  lemma FirstControl(p: RxPool, a: MsgCtx, m: seq<byte>)
    requires IdlePool(p) && Fits(a) && a.ctl && |m| == 24 && a.sqn == a.seqAuth
    ensures Accepts(p, Arrival(a, m, 2)) && !Handle(p, Arrival(a, m, 2)).fault
    ensures Holding(Handle(p, Arrival(a, m, 2)).pool, p.idle[0], a, {0, 1}, 8)
  {
    var e := Arrival(a, m, 2);
    ArrivalReads(a, m, 2);
    var c, s := Head(e.c, e.p), p.idle[0];
    ReceiveSteps(p, e.c, e.p, e.len, true);
    LongPayload(e.p, e.len, true, 2, 2);
    RefilledTask(Leftover(p, s), c, 3);
    assert Request(p, c, 3).pool.tasks[s] == Refilled(Leftover(p, s), c, 3);
    assert Bits(3) == {0, 1, 2};
    hide ParseHead, Arrival, Payload, HeadCtx, Splice;
  }

  lemma AccessInto(p: RxPool, s: nat, a: MsgCtx, b: MsgCtx, m: seq<byte>, n: seq<byte>, k: nat, missing: set<nat>, len: nat)
    requires Clash(a, b, m, n) && Holding(p, s, a, missing, len) && k < 2 && k in missing
    ensures var e := Arrival(b, n, k);
            && Accepts(p, e)
            && if missing == {k} then Handle(p, e).fault == (len + 12 > 24)
               else !Handle(p, e).fault && Holding(Handle(p, e).pool, s, a, missing - {k}, len + 12)
  {
    var e := Arrival(b, n, k);
    ArrivalReads(b, n, k);
    var c := Head(e.c, e.p);
    ReceiveSteps(p, e.c, e.p, e.len, true);
    LongPayload(e.p, e.len, false, k, 1);
    OnlySlotFound(p, s, c, 2);
    CopiedInto(p, s, c, k, 1, Payload(e.p, e.len, false, k, 1), true);
    hide ParseHead, Arrival, Payload, HeadCtx, Splice;
  }

  /** Control and access segments that share source, IV index and SeqAuth: the last control segment, then both
      access segments, take an idle pool's 24-octet task to a length of 32, all of which is handed up. */
  lemma MixedKindsOverrun(p: RxPool, a: MsgCtx, b: MsgCtx, m: seq<byte>, n: seq<byte>)
    requires IdlePool(p) && Clash(a, b, m, n)
    ensures var e0, e1, e2 := Arrival(a, m, 2), Arrival(b, n, 0), Arrival(b, n, 1);
            && Accepts(p, e0) && !Handle(p, e0).fault
            && Accepts(Handle(p, e0).pool, e1) && !Handle(Handle(p, e0).pool, e1).fault
            && Accepts(Handle(Handle(p, e0).pool, e1).pool, e2) && Handle(Handle(Handle(p, e0).pool, e1).pool, e2).fault
  {
    hide Accepts, Handle, Holding, Arrival;
    var s := p.idle[0];
    FirstControl(p, a, m);
    var p1 := Handle(p, Arrival(a, m, 2)).pool;
    AccessInto(p1, s, a, b, m, n, 0, {0, 1}, 8);
    assert {0, 1} - {0} == {1};
    AccessInto(Handle(p1, Arrival(b, n, 0)).pool, s, a, b, m, n, 1, {1}, 20);
  }
}
