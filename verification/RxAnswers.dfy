// When a segment is answered, and with what: a message that is refused is cancelled at its sender and forgotten here.

module RxAnswers {
  import opened Bytes
  import opened Mesh
  import opened Segments
  import opened RxNode
  import opened RxPools

  predicate SameMessage(a: MsgCtx, c: MsgCtx) { a.src == c.src && AuthKey(a) == AuthKey(c) }

  /** Slot s reassembles the message of c. */
  predicate TaskFor(p: RxPool, c: MsgCtx, s: nat)
    requires PoolOk(p)
  {
    s in p.active && s < |p.tasks| && SameMessage(p.tasks[s].ctx, c)
  }

  ghost predicate Reassembles(p: RxPool, c: MsgCtx)
    requires PoolOk(p)
  {
    exists s :: TaskFor(p, c, s)
  }

  /** The source has a message under way that is newer than c. */
  ghost predicate Outdated(p: RxPool, c: MsgCtx)
    requires PoolOk(p)
  {
    exists k :: 0 <= k < |p.active| && p.tasks[p.active[k]].ctx.src == c.src && AuthKey(p.tasks[p.active[k]].ctx) > AuthKey(c)
  }

  /** No slot is idle, and the source has none whose message would give way. */
  predicate NoRoom(p: RxPool, c: MsgCtx)
    requires PoolOk(p)
  {
    p.idle == [] && forall k :: 0 <= k < |p.active| ==> p.tasks[p.active[k]].ctx.src != c.src
  }

  /** A message gets no task if and only if a newer one of its source is under way or there is no room; it gets a new one
      if and only if it gets one and has none. */
  lemma RequestRefusedIff(p: RxPool, c: MsgCtx, count: nat)
    requires Shaped(p)
    ensures var r := Request(p, c, count);
            && (r.slot.None? <==> Outdated(p, c) || NoRoom(p, c)) && (r.slot.None? ==> r.pool == p)
            && (r.slot.Some? ==> TaskFor(r.pool, c, r.slot.value))
            && (r.taken <==> r.slot.Some? && !Reassembles(p, c))
  {
    hide RxPartition, TakeSlot, RxRelease;
    RequestShape(p, c, count);
    var k := FindSource(p, c.src, 0);
    if k < |p.active| {
      OnlyTask(p, c, k);
      assert AuthKey(p.tasks[p.active[k]].ctx) == AuthKey(c) ==> TaskFor(p, c, p.active[k]);
      if AuthKey(c) > AuthKey(p.tasks[p.active[k]].ctx) { Room(p, p.active[k]); }
    }
  }

  lemma Room(p: RxPool, s: nat)
    requires s < |p.tasks|
    ensures RxRelease(p, s).idle != []
  {
  }

  /** The source's one active task decides. */
  lemma OnlyTask(p: RxPool, c: MsgCtx, k: nat)
    requires Shaped(p) && k < |p.active| && p.tasks[p.active[k]].ctx.src == c.src
    ensures Outdated(p, c) <==> AuthKey(p.tasks[p.active[k]].ctx) > AuthKey(c)
    ensures Reassembles(p, c) <==> AuthKey(p.tasks[p.active[k]].ctx) == AuthKey(c)
    ensures forall s :: TaskFor(p, c, s) ==> s == p.active[k]
  {
    hide RxPartition;
    forall s | TaskFor(p, c, s) ensures s == p.active[k] {
      var j :| 0 <= j < |p.active| && p.active[j] == s;
    }
    assert AuthKey(p.tasks[p.active[k]].ctx) == AuthKey(c) ==> TaskFor(p, c, p.active[k]);
  }

  /** With task t the segment is refused: its header is not that of the segments before, or it would complete the message
      and replay protection is against it. */
  predicate TaskRefuses(t: RxTask, c: MsgCtx, sego: nat, segn: nat, replayOk: bool) {
    !Matches(t, c, segn + 1) || (!replayOk && sego in t.notReceived && (segn == 0 || t.notReceived == {sego}))
  }

  /** The sender is told that nothing of the message is acknowledged, which ends it there, and here it is forgotten. */
  ghost predicate Cancelled(r: RxOut, c: MsgCtx)
    requires PoolOk(r.pool)
  {
    !Reassembles(r.pool, c) && r.ack == Some(Ack(c, {})) && r.delivered.None?
  }

  /** Slot s goes on with the message, and the segment is not missing any more; the sender is told what is held if and only
      if nothing is missing, and the message is handed up if and only if something was until now. */
  predicate Keeps(r: RxOut, c: MsgCtx, s: nat, before: RxTask, sego: nat, segn: nat)
    requires PoolOk(r.pool)
  {
    && TaskFor(r.pool, c, s)
    && var t := r.pool.tasks[s];
       && t.notReceived == (if segn == 0 && sego in before.notReceived then {} else before.notReceived - {sego})
       && r.ack == (if t.notReceived == {} then Some(Ack(c, t.blockAck)) else None)
       && (if before.notReceived != {} && t.notReceived == {}
           then t.pduLen <= |t.buf| && r.delivered == Some(Delivery(c.(seg := true), t.buf[..t.pduLen]))
           else r.delivered == None)
  }

  /** A segment that stays inside its buffer: its message is cancelled if it gets no task, or is refused by the one it
      gets; otherwise that goes on with it. */
  lemma AnsweredIff(p: RxPool, c0: MsgCtx, pdu: seq<byte>, len: nat, replayOk: bool)
    requires Shaped(p) && |pdu| == 20 && len <= (if c0.ctl then 12 else 16) && !Receive(p, c0, pdu, len, replayOk).fault
    ensures var r, h, c := Receive(p, c0, pdu, len, replayOk), ParseHead(pdu), HeadCtx(c0, ParseHead(pdu));
            var q := Request(p, c, h.segn + 1);
            if q.slot.None? || TaskRefuses(q.pool.tasks[q.slot.value], c, h.sego, h.segn, replayOk) then Cancelled(r, c)
            else Keeps(r, c, q.slot.value, q.pool.tasks[q.slot.value], h.sego, h.segn)
  {
    var h, c := ParseHead(pdu), HeadCtx(c0, ParseHead(pdu));
    var q := Request(p, c, h.segn + 1);
    assert PoolOk(p);
    hide *;
    RequestShape(p, c, h.segn + 1);
    RequestRefusedIff(p, c, h.segn + 1);
    ReceiveIs(p, c0, pdu, len, replayOk);
    if q.slot.None? {
      NothingFor(p, c);
    } else {
      AtSlotAnswers(q.pool, q.slot.value, c, h.sego, h.segn, Payload(pdu, len, c.ctl, h.sego, h.segn), replayOk);
    }
  }

  lemma ReceiveIs(p: RxPool, c0: MsgCtx, pdu: seq<byte>, len: nat, replayOk: bool)
    requires PoolOk(p) && |pdu| == 20 && len <= (if c0.ctl then 12 else 16)
    ensures var h, c := ParseHead(pdu), HeadCtx(c0, ParseHead(pdu));
            var q := Request(p, c, h.segn + 1);
            && c.ctl == c0.ctl
            && Receive(p, c0, pdu, len, replayOk)
               == if q.slot.None? then RxOut(q.pool, Some(Ack(c, {})), None, false)
                  else AtSlot(q.pool, q.slot.value, c, h.sego, h.segn, Payload(pdu, len, c.ctl, h.sego, h.segn), replayOk)
  {
    hide Request, AtSlot, Payload, ParseHead, RecoverSeqAuth;
  }

  lemma NothingFor(p: RxPool, c: MsgCtx)
    requires Shaped(p) && (Outdated(p, c) || NoRoom(p, c))
    ensures !Reassembles(p, c)
  {
    hide RxPartition;
    if Outdated(p, c) {
      var k :| 0 <= k < |p.active| && p.tasks[p.active[k]].ctx.src == c.src && AuthKey(p.tasks[p.active[k]].ctx) > AuthKey(c);
      OnlyTask(p, c, k);
    }
  }

  /** Releasing the message's task leaves it none. */
  lemma Forgotten(p: RxPool, c: MsgCtx, s: nat)
    requires Shaped(p) && TaskFor(p, c, s)
    ensures !Reassembles(RxRelease(p, s), c)
  {
    var k :| 0 <= k < |p.active| && p.active[k] == s;
    ReleaseShape(p, s);
    hide RxPartition, RxRelease;
    forall i ensures !TaskFor(RxRelease(p, s), c, i) { }
  }

  lemma AtSlotAnswers(p: RxPool, s: nat, c: MsgCtx, sego: nat, segn: nat, data: seq<byte>, replayOk: bool)
    requires Shaped(p) && TaskFor(p, c, s) && !AtSlot(p, s, c, sego, segn, data, replayOk).fault
    ensures var r, t := AtSlot(p, s, c, sego, segn, data, replayOk), p.tasks[s];
            if TaskRefuses(t, c, sego, segn, replayOk) then Cancelled(r, c) else Keeps(r, c, s, t, sego, segn)
  {
    var t := p.tasks[s];
    Forgotten(p, c, s);
    hide RxPartition, RxRelease;
    if Matches(t, c, segn + 1) && sego in t.notReceived { StoreAnswers(p, s, c, sego, segn, data, replayOk); }
  }

  lemma StoreAnswers(p: RxPool, s: nat, c: MsgCtx, sego: nat, segn: nat, data: seq<byte>, replayOk: bool)
    requires Shaped(p) && TaskFor(p, c, s) && !Store(p, s, c, sego, segn, data, replayOk).fault
    requires Matches(p.tasks[s], c, segn + 1) && sego in p.tasks[s].notReceived
    ensures var r, t := Store(p, s, c, sego, segn, data, replayOk), p.tasks[s];
            if TaskRefuses(t, c, sego, segn, replayOk) then Cancelled(r, c) else Keeps(r, c, s, t, sego, segn)
  {
    Forgotten(p, c, s);
    var at := if segn == 0 then 0 else sego;
    hide RxPartition, RxRelease, Matches;
    if !(segn == 0 && !replayOk) {
      var t := Accept(p.tasks[s], c.ctl, at, segn, data);
      var stored := p.(tasks := p.tasks[s := t]);
      FillShape(p, s, t);
      assert TaskFor(stored, c, s);
      Forgotten(stored, c, s);
    }
  }
}
