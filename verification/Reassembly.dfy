// One received segment of a numbered message: what it stores, acknowledges and hands up.

module Reassembly {
  import opened Bytes
  import opened Mesh
  import opened Segments
  import opened TxNode
  import opened RxNode
  import opened Scheduler
  import opened Messages
  import opened Freshness
  import opened RxPools

  /** p, with len octets of PDU at its front, is the frame that d put on the air for segment k of message m. */
  ghost predicate Arrives(p: seq<byte>, len: nat, d: Draw, m: Draw, k: nat) {
    && IsFrameOf(d, m, k) && d.sqn <= SEQ_MAX && |p| == 20
    && len == |d.use.frame| <= 20 && p[..len] == d.use.frame
  }

  /** Messages as the sender numbers them. */
  ghost predicate Numbering(w: Sender) {
    && NoReuse(w.log)
    && forall j :: 0 <= j < |w.log| && w.log[j].use.Message? ==> DrawOk(w.log, w.log[j])
  }

  lemma ArrivedHead(p: seq<byte>, len: nat, d: Draw, m: Draw, k: nat, log: seq<Draw>)
    requires Arrives(p, len, d, m, k) && DrawOk(log, m)
    ensures var ctl, n := m.use.ctx.ctl, SegCount(|m.use.pdu|, m.use.ctx.ctl);
            var h := ParseHead(p);
            && 4 <= len <= (if ctl then 12 else 16)
            && h.sego == k < n && h.segn == n - 1
            && Belongs(HeadCtx(NetCtx(d.use.ctx), h), m)
            && Payload(p, len, ctl, k, n - 1) == SegData(m.use.pdu, ctl, k)
  {
    var c := m.use.ctx;
    SegPduParses(c, m.use.pdu, k);
    SegDataLen(m.use.pdu, c.ctl, k);
    WindowRecovers(m.sqn, d.sqn);
    SameHead(p, d.use.frame, len);
    assert p[4..len] == d.use.frame[4..];
    LongPayload(p, len, c.ctl, k, SegCount(|m.use.pdu|, c.ctl) - 1);
    hide Payload;
  }

  lemma SameHead(p: seq<byte>, frame: seq<byte>, len: nat)
    requires 4 <= len <= |p| && p[..len] == frame
    ensures ParseHead(p) == ParseHead(frame)
  {
    assert p[1..4] == p[..len][1..4];
    assert p[0] == p[..len][0];
  }

  /** Two numbered messages of one source with the same IV and SeqAuth are the same message. */
  lemma SameMessage(w: Sender, i: nat, j: nat, a: MsgCtx, b: MsgCtx)
    requires Numbering(w) && i < |w.log| && j < |w.log| && Belongs(a, w.log[i]) && Belongs(b, w.log[j])
    requires a.src == b.src && AuthKey(a) == AuthKey(b) && w.log[j].sqn < SEQ_MAX
    ensures i == j && KeyOf(a) == KeyOf(b)
  {
    assert DrawOk(w.log, w.log[i]) && DrawOk(w.log, w.log[j]);
    SplitAuthKey(a, b);
    assert SameNonce(w.log[i], w.log[j]);
  }

  lemma SplitAuthKey(a: MsgCtx, b: MsgCtx)
    requires a.seqAuth <= SEQ_MAX && b.seqAuth <= SEQ_MAX && AuthKey(a) == AuthKey(b)
    ensures a.iv == b.iv && a.seqAuth == b.seqAuth
  {
  }

  lemma BelongsCount(c: MsgCtx, w: Sender, j: nat)
    requires j < |w.log| && Numbering(w) && Belongs(c, w.log[j])
    ensures c.seqAuth <= SEQ_MAX && w.log[j].use.pdu != [] && w.log[j].src == c.src
  {
    assert DrawOk(w.log, w.log[j]);
  }

  lemma OwnRequest(w: Sender, ds: set<Delivery>, p: RxPool, c: MsgCtx, j: nat)
    requires PoolGood(w, ds, p) && Numbering(w) && j < |w.log| && Belongs(c, w.log[j]) && w.log[j].sqn < SEQ_MAX
    requires Own(w, c.src)
    requires TakesUsableSlot(p, c, SegCount(|w.log[j].use.pdu|, c.ctl))
    ensures var r := Request(p, c, SegCount(|w.log[j].use.pdu|, c.ctl));
            && PoolGood(w, ds, r.pool)
            && (r.slot.Some? ==> r.slot.value in r.pool.active && TaskOf(r.pool.tasks[r.slot.value], w.log[j], ds)
                                 && KeyOf(r.pool.tasks[r.slot.value].ctx) == KeyOf(c))
  {
    var n := SegCount(|w.log[j].use.pdu|, c.ctl);
    var r := Request(p, c, n);
    BelongsCount(c, w, j);
    if r.taken && r.slot.Some? { NewTaskHolds(Leftover(p, r.slot.value), c, w.log[j], ds); }
    RequestContents(w, ds, p, c, n);
    RequestShape(p, c, n);
    if r.slot.Some? {
      OwnSlot(w, ds, r.pool, r.slot.value, c, j);
    }
  }

  lemma NewTaskHolds(t: RxTask, c: MsgCtx, d: Draw, ds: set<Delivery>)
    requires Belongs(c, d) && d.use.pdu != [] && Usable(t, SegCount(|d.use.pdu|, c.ctl))
    ensures TaskOf(Refilled(t, c, SegCount(|d.use.pdu|, c.ctl)), d, ds)
  {
    RefilledHolds(t, c, d.use.pdu);
    assert 0 in Bits(SegCount(|d.use.pdu|, c.ctl));
  }

  lemma OwnSlot(w: Sender, ds: set<Delivery>, p: RxPool, s: nat, c: MsgCtx, j: nat)
    requires PoolGood(w, ds, p) && Numbering(w) && j < |w.log| && Belongs(c, w.log[j]) && w.log[j].sqn < SEQ_MAX
    requires Own(w, c.src) && s in p.active && s < |p.tasks|
    requires p.tasks[s].ctx.src == c.src && AuthKey(p.tasks[s].ctx) == AuthKey(c)
    ensures TaskOf(p.tasks[s], w.log[j], ds) && KeyOf(p.tasks[s].ctx) == KeyOf(c)
  {
    var k := FirstIndex(p.active, s);
    assert TaskOk(w, ds, p.tasks[p.active[k]]);
    var i :| 0 <= i < |w.log| && TaskOf(p.tasks[s], w.log[i], ds);
    SameMessage(w, i, j, p.tasks[s].ctx, c);
  }

  /** Storing a segment of a numbered message. */
  lemma OwnStore(w: Sender, ds: set<Delivery>, p: RxPool, s: nat, c: MsgCtx, k: nat, j: nat, replayOk: bool)
    requires PoolGood(w, ds, p) && s in p.active && s < |p.tasks| && j < |w.log| && Belongs(c, w.log[j])
    requires TaskOf(p.tasks[s], w.log[j], ds) && KeyOf(p.tasks[s].ctx) == KeyOf(c) && k in p.tasks[s].notReceived
    requires w.log[j].use.pdu != [] && k < SegCount(|w.log[j].use.pdu|, c.ctl)
    ensures var pdu := w.log[j].use.pdu;
            var r := Store(p, s, c, k, SegCount(|pdu|, c.ctl) - 1, SegData(pdu, c.ctl, k), replayOk);
            && !r.fault && PoolGood(w, After(ds, r), r.pool)
            && (r.ack.Some? ==> AckOk(w, After(ds, r), r.ack.value))
            && (r.delivered.Some? ==> r.delivered.value == Delivery(c.(seg := true), pdu))
  {
    hide PoolGood, AckOk, Accept, TaskOf, Holds, SegData;
    var pdu := w.log[j].use.pdu;
    var t := OwnAccept(ds, p.tasks[s], c, w.log[j], k);
    if t.notReceived != {} { PartialStore(w, ds, p, s, t, j); }
    RefusedStore(w, ds, p, s, t);
    ReleaseContents(w, ds, p, s);
    NackOk(w, ds, c, j);
    if t.notReceived == {} { CompletedStore(w, ds, p, s, t, c, j); }
  }

  lemma OwnAccept(ds: set<Delivery>, t0: RxTask, c: MsgCtx, d: Draw, k: nat) returns (t: RxTask)
    requires Belongs(c, d) && TaskOf(t0, d, ds) && KeyOf(t0.ctx) == KeyOf(c) && k in t0.notReceived && d.use.pdu != []
    requires k < SegCount(|d.use.pdu|, c.ctl)
    ensures var pdu := d.use.pdu;
            var n := SegCount(|pdu|, c.ctl);
            && k < n && (n == 1 ==> k == 0) && k * SegSize(c.ctl) + |SegData(pdu, c.ctl, k)| <= |t0.buf|
            && t == Accept(t0, c.ctl, k, n - 1, SegData(pdu, c.ctl, k))
            && t.ctx == t0.ctx && Belongs(t.ctx, d) && Holds(t, c.ctl, pdu) && t.ctx.ctl == c.ctl
            && (t.notReceived == {} ==> t.pduLen == |pdu| <= |t.buf| && t.buf[..|pdu|] == pdu)
  {
    var pdu, n := d.use.pdu, SegCount(|d.use.pdu|, c.ctl);
    AcceptHolds(t0, c.ctl, pdu, k);
    t := Accept(t0, c.ctl, k, n - 1, SegData(pdu, c.ctl, k));
    CompleteTask(t, c.ctl, pdu);
  }

  lemma PartialStore(w: Sender, ds: set<Delivery>, p: RxPool, s: nat, t: RxTask, j: nat)
    requires PoolGood(w, ds, p) && s < |p.tasks| && t.ctx == p.tasks[s].ctx && j < |w.log|
    requires Belongs(t.ctx, w.log[j]) && Holds(t, t.ctx.ctl, w.log[j].use.pdu) && t.notReceived != {}
    ensures PoolGood(w, ds, p.(tasks := p.tasks[s := t]))
  {
    assert TaskOf(t, w.log[j], ds);
    FillContents(w, ds, p, s, t);
  }

  lemma NackOk(w: Sender, ds: set<Delivery>, c: MsgCtx, j: nat)
    requires j < |w.log| && Belongs(c, w.log[j]) && w.log[j].use.pdu != []
    ensures AckOk(w, ds, Ack(c, {}))
  {
    assert 0 in Bits(SegCount(|w.log[j].use.pdu|, c.ctl));
  }

  lemma RefusedStore(w: Sender, ds: set<Delivery>, p: RxPool, s: nat, t: RxTask)
    requires PoolGood(w, ds, p) && s in p.active && s < |p.tasks| && t.ctx == p.tasks[s].ctx
    ensures PoolGood(w, ds, RxRelease(p.(tasks := p.tasks[s := t]), s))
  {
    ReleaseContents(w, ds, p, s);
    ReleaseShape(p, s);
    var q := RxRelease(p, s);
    var r := RxRelease(p.(tasks := p.tasks[s := t]), s);
    assert r == q.(tasks := q.tasks[s := t]);
    FillShape(q, s, t);
    forall k | 0 <= k < |r.active| ensures TaskOk(w, ds, r.tasks[r.active[k]]) {
      assert r.active[k] == q.active[k] && r.active[k] != s;
    }
  }

  lemma CompletedStore(w: Sender, ds: set<Delivery>, p: RxPool, s: nat, t: RxTask, c: MsgCtx, j: nat)
    requires PoolGood(w, ds, p) && s in p.active && s < |p.tasks| && t.ctx == p.tasks[s].ctx
    requires j < |w.log| && Belongs(t.ctx, w.log[j]) && Belongs(c, w.log[j]) && KeyOf(t.ctx) == KeyOf(c)
    requires Holds(t, c.ctl, w.log[j].use.pdu) && t.notReceived == {} && t.ctx.ctl == c.ctl
    ensures var es := ds + {Delivery(c.(seg := true), w.log[j].use.pdu)};
            PoolGood(w, es, p.(tasks := p.tasks[s := t])) && AckOk(w, es, Ack(c, t.blockAck))
  {
    var pdu := w.log[j].use.pdu;
    var d := Delivery(c.(seg := true), pdu);
    var es := ds + {d};
    assert KeyOf(d.ctx) == KeyOf(c) && d in es;
    assert HasDelivered(es, KeyOf(c), pdu);
    MoreDelivered(w, ds, es, p);
    assert TaskOf(t, w.log[j], es);
    FillContents(w, es, p, s, t);
  }

  /** A segment of a numbered message arrives: no access leaves the buffer, the pool stays good, the
      acknowledgement sent is truthful, and anything handed up is exactly the sender's PDU. */
  lemma OwnSegmentArrives(w: Sender, ds: set<Delivery>, pool: RxPool, p: seq<byte>, len: nat, d: Draw, j: nat, k: nat,
                          replayOk: bool)
    requires PoolGood(w, ds, pool) && Numbering(w) && j < |w.log| && Arrives(p, len, d, w.log[j], k)
    requires w.log[j].sqn < SEQ_MAX && Own(w, d.src)
    requires TakesUsableSlot(pool, HeadCtx(NetCtx(d.use.ctx), ParseHead(p)),
                            SegCount(|w.log[j].use.pdu|, w.log[j].use.ctx.ctl))
    ensures 4 <= len <= (if d.use.ctx.ctl then 12 else 16)
    ensures var r := Receive(pool, NetCtx(d.use.ctx), p, len, replayOk);
            && !r.fault && PoolGood(w, After(ds, r), r.pool)
            && (r.ack.Some? ==> AckOk(w, After(ds, r), r.ack.value))
            && (r.delivered.Some? ==> Belongs(r.delivered.value.ctx, w.log[j]) && r.delivered.value.ctx.seg
                                      && r.delivered.value.data == w.log[j].use.pdu)
  {
    assert DrawOk(w.log, w.log[j]);
    ArrivedHead(p, len, d, w.log[j], k, w.log);
    var h := ParseHead(p);
    var c, pdu := HeadCtx(NetCtx(d.use.ctx), h), w.log[j].use.pdu;
    var n := SegCount(|pdu|, c.ctl);
    OwnRequest(w, ds, pool, c, j);
    NackOk(w, ds, c, j);
    ReceiveOwn(w, ds, pool, p, len, NetCtx(d.use.ctx), j, k, replayOk);
  }

  lemma ReceiveOwn(w: Sender, ds: set<Delivery>, pool: RxPool, p: seq<byte>, len: nat, c0: MsgCtx, j: nat, k: nat,
                   replayOk: bool)
    requires |p| == 20 && 4 <= len <= (if c0.ctl then 12 else 16) && j < |w.log| && PoolOk(pool)
    requires w.log[j].use.Message?
    requires var pdu, h, c := w.log[j].use.pdu, ParseHead(p), HeadCtx(c0, ParseHead(p));
             var n := SegCount(|pdu|, c.ctl);
             && pdu != [] && Belongs(c, w.log[j]) && AckOk(w, ds, Ack(c, {}))
             && h.sego == k < n && h.segn == n - 1 && Payload(p, len, c.ctl, k, n - 1) == SegData(pdu, c.ctl, k)
             && var req := Request(pool, c, n);
             && PoolGood(w, ds, req.pool)
             && (req.slot.Some? ==> req.slot.value in req.pool.active && TaskOf(req.pool.tasks[req.slot.value], w.log[j], ds)
                                    && KeyOf(req.pool.tasks[req.slot.value].ctx) == KeyOf(c))
    ensures var r := Receive(pool, c0, p, len, replayOk);
            && !r.fault && PoolGood(w, After(ds, r), r.pool)
            && (r.ack.Some? ==> AckOk(w, After(ds, r), r.ack.value))
            && (r.delivered.Some? ==> Belongs(r.delivered.value.ctx, w.log[j]) && r.delivered.value.ctx.seg
                                      && r.delivered.value.data == w.log[j].use.pdu)
  {
    hide PoolGood, Request, Store, Payload, ParseHead, HeadCtx, AckOk, Matches, TaskOf;
    var pdu, c := w.log[j].use.pdu, HeadCtx(c0, ParseHead(p));
    var req := Request(pool, c, SegCount(|pdu|, c.ctl));
    if req.slot.Some? {
      var s := req.slot.value;
      var t := req.pool.tasks[s];
      TaskMatches(t, c, w.log[j], ds);
      if t.notReceived == {} { FullTaskAck(w, ds, t, c, j); }
      if k in t.notReceived { OwnStore(w, ds, req.pool, s, c, k, j, replayOk); }
    }
  }

  lemma TaskMatches(t: RxTask, c: MsgCtx, d: Draw, ds: set<Delivery>)
    requires TaskOf(t, d, ds) && Belongs(c, d)
    ensures Matches(t, c, SegCount(|d.use.pdu|, c.ctl))
  {
  }

  lemma FullTaskAck(w: Sender, ds: set<Delivery>, t: RxTask, c: MsgCtx, j: nat)
    requires j < |w.log| && TaskOf(t, w.log[j], ds) && Belongs(c, w.log[j]) && KeyOf(t.ctx) == KeyOf(c) && t.notReceived == {}
    ensures AckOk(w, ds, Ack(c, t.blockAck))
  {
  }

  /** Traffic from other sources leaves our messages' tasks alone, or replaces a slot they do not use. */
  lemma ForeignSegmentArrives(w: Sender, ds: set<Delivery>, pool: RxPool, c0: MsgCtx, p: seq<byte>, len: nat, replayOk: bool)
    requires PoolGood(w, ds, pool) && !Own(w, c0.src) && |p| == 20 && len <= (if c0.ctl then 12 else 16)
    ensures var r := Receive(pool, c0, p, len, replayOk);
            && PoolGood(w, ds, r.pool) && (r.ack.Some? ==> !Own(w, r.ack.value.ctx.src))
            && (r.delivered.Some? ==> !Own(w, r.delivered.value.ctx.src))
  {
    hide PoolGood, Request, Store, Payload, ParseHead, Matches, Shaped;
    var h := ParseHead(p);
    var c := HeadCtx(c0, h);
    ForeignRequest(w, ds, pool, c, h.segn + 1);
    var req := Request(pool, c, h.segn + 1);
    if req.slot.Some? {
      var s := req.slot.value;
      if !Matches(req.pool.tasks[s], c, h.segn + 1) {
        ReleaseContents(w, ds, req.pool, s);
      } else if h.sego in req.pool.tasks[s].notReceived {
        ForeignStore(w, ds, req.pool, s, c, h.sego, h.segn, Payload(p, len, c.ctl, h.sego, h.segn), replayOk);
      }
    }
  }

  lemma ForeignRequest(w: Sender, ds: set<Delivery>, pool: RxPool, c: MsgCtx, count: nat)
    requires PoolGood(w, ds, pool) && !Own(w, c.src)
    ensures var req := Request(pool, c, count);
            PoolOk(pool) && PoolGood(w, ds, req.pool)
            && (req.slot.Some? ==> req.slot.value in req.pool.active && !Own(w, req.pool.tasks[req.slot.value].ctx.src))
  {
    RequestContents(w, ds, pool, c, count);
    RequestShape(pool, c, count);
  }

  lemma ForeignFill(w: Sender, ds: set<Delivery>, p: RxPool, s: nat, t: RxTask)
    requires PoolGood(w, ds, p) && s < |p.tasks| && t.ctx == p.tasks[s].ctx && !Own(w, t.ctx.src)
    ensures PoolGood(w, ds, p.(tasks := p.tasks[s := t]))
  {
    FillContents(w, ds, p, s, t);
  }

  lemma AcceptKeepsContext(t: RxTask, ctl: bool, sego: nat, segn: nat, data: seq<byte>)
    requires sego * SegSize(ctl) + |data| <= |t.buf|
    ensures Accept(t, ctl, sego, segn, data).ctx == t.ctx
  {
  }

  lemma ForeignStore(w: Sender, ds: set<Delivery>, p: RxPool, s: nat, c: MsgCtx, sego: nat, segn: nat, data: seq<byte>,
                     replayOk: bool)
    requires PoolGood(w, ds, p) && s in p.active && s < |p.tasks| && !Own(w, p.tasks[s].ctx.src)
    ensures PoolGood(w, ds, Store(p, s, c, sego, segn, data, replayOk).pool)
  {
    var at := if segn == 0 then 0 else sego;
    ReleaseContents(w, ds, p, s);
    if at * SegSize(c.ctl) + |data| <= |p.tasks[s].buf| {
      var t := Accept(p.tasks[s], c.ctl, at, segn, data);
      AcceptKeepsContext(p.tasks[s], c.ctl, at, segn, data);
      hide PoolGood, Accept, RxRelease;
      ForeignFill(w, ds, p, s, t);
      RefusedStore(w, ds, p, s, t);
    }
  }
}
