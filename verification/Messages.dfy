// What is on the air: every segment PDU a node ever sends belongs to a message it numbered,
// carries that message's octets, and has a sequence number from which SeqAuth can be recovered.

module Messages {
  import opened Bytes
  import opened Mesh
  import opened Segments
  import opened IvIndex
  import opened TxNode
  import opened Scheduler

  /** d is the draw that numbered the message of task t. */
  ghost predicate IsMessageOf(d: Draw, t: TxTask) {
    && d.use == Message(t.ctx.(sqn := t.ctx.seqAuth), t.pdu)
    && d.src == t.ctx.src && d.iv == t.ctx.iv && d.sqn == t.ctx.seqAuth
  }

  /** d put segment k of the message numbered by m on the air. */
  ghost predicate IsFrameOf(d: Draw, m: Draw, k: nat) {
    && m.use.Message? && k < SegCount(|m.use.pdu|, m.use.ctx.ctl) <= MAX_SEGMENTS
    && d.src == m.src && d.iv == m.iv && InWindow(d.sqn, m.sqn)
    && d.use == OnAir(m.use.ctx.(sqn := d.sqn), SegPdu(m.use.ctx, m.use.pdu, k))
  }

  ghost predicate HasMessage(log: seq<Draw>, d: Draw) {
    exists j, k :: 0 <= j < |log| && IsFrameOf(d, log[j], k)
  }

  /** A frame carries the number it is logged under, and fits a packet. An access message sent whole has that number as
      its SeqAuth. */
  predicate FrameOk(d: Draw, c: MsgCtx, f: seq<byte>) {
    && Fits(c) && c.src == d.src && c.iv == d.iv && c.sqn == d.sqn && (!c.seg && !c.ctl ==> c.seqAuth == c.sqn)
    && 1 <= |f| <= (if c.ctl then 12 else 16)
  }

  ghost predicate DrawOk(log: seq<Draw>, d: Draw) {
    match d.use
    case Message(c, pdu) => Fits(c) && c.seg && c.src == d.src && c.iv == d.iv && c.sqn == c.seqAuth == d.sqn && pdu != []
    case OnAir(c, f) => FrameOk(d, c, f) && (c.seg ==> d.sqn <= SEQ_MAX && HasMessage(log, d))
    case Refused => true
  }

  ghost predicate Traced(log: seq<Draw>) { forall i :: 0 <= i < |log| ==> DrawOk(log, log[i]) }

  ghost predicate Numbered(log: seq<Draw>, t: TxTask) { exists i :: 0 <= i < |log| && IsMessageOf(log[i], t) }

  /** A stored task is the segmentation of a numbered message. */
  ghost predicate TaskGood(n: Node, t: TxTask) {
    && t.segBits == Bits(TaskCount(t)) && 1 <= TaskCount(t) <= MAX_SEGMENTS
    && t.ctx.seg && OwnSource(n, t.ctx.src) && Numbered(n.log, t)
  }

  ghost predicate ListGood(n: Node, l: seq<nat>)
    requires Below(l, |n.tasks|)
  {
    forall k :: 0 <= k < |l| ==> TaskGood(n, n.tasks[l[k]])
  }

  ghost predicate NoneAcked(n: Node)
    requires NodeOk(n)
  {
    forall k :: 0 <= k < |n.pending| ==> n.tasks[n.pending[k]].blockAck == {}
  }

  /** Counters have 24 bits, addresses 16. */
  ghost predicate CountersOk(n: Node) {
    n.addr + |n.counters| <= 0x1_0000 && forall i :: 0 <= i < |n.counters| ==> n.counters[i] <= SEQ_MAX
  }

  ghost predicate Good(n: Node) {
    && NodeOk(n) && IvValid(n.iv) && n.iv.index < 0x1_0000_0000 && CountersOk(n)
    && Traced(n.log) && ListGood(n, n.active) && ListGood(n, n.pending) && NoneAcked(n)
  }

  /** The log only grows, and the node keeps its addresses. */
  predicate Extends(n: Node, r: Node) { n.log <= r.log && r.addr == n.addr && |r.counters| == |n.counters| }

  // ---------- growing the log ----------

  lemma DrawOkGrows(l1: seq<Draw>, l2: seq<Draw>, d: Draw)
    requires l1 <= l2 && DrawOk(l1, d)
    ensures DrawOk(l2, d)
  {
    if d.use.OnAir? && d.use.ctx.seg {
      var j, k :| 0 <= j < |l1| && IsFrameOf(d, l1[j], k);
      assert l2[j] == l1[j];
    }
  }

  lemma TracedGrows(log: seq<Draw>, d: Draw)
    requires Traced(log) && DrawOk(log + [d], d)
    ensures Traced(log + [d])
  {
    forall i | 0 <= i < |log| ensures DrawOk(log + [d], log[i]) {
      DrawOkGrows(log, log + [d], log[i]);
    }
  }

  lemma NumberedGrows(l1: seq<Draw>, l2: seq<Draw>, t: TxTask)
    requires l1 <= l2 && Numbered(l1, t)
    ensures Numbered(l2, t)
  {
    var i :| 0 <= i < |l1| && IsMessageOf(l1[i], t);
    assert l2[i] == l1[i];
  }

  lemma ListGrows(n: Node, r: Node, l: seq<nat>)
    requires Below(l, |n.tasks|) && ListGood(n, l) && n.log <= r.log
    requires |r.counters| == |n.counters| && r.addr == n.addr && |r.tasks| == |n.tasks|
    requires forall k :: 0 <= k < |l| ==>
               r.tasks[l[k]] == n.tasks[l[k]].(ctx := n.tasks[l[k]].ctx.(sqn := r.tasks[l[k]].ctx.sqn),
                                               blockAck := r.tasks[l[k]].blockAck, retryTimes := r.tasks[l[k]].retryTimes)
    ensures ListGood(r, l)
  {
    forall k | 0 <= k < |l| ensures TaskGood(r, r.tasks[l[k]]) {
      NumberedGrows(n.log, r.log, n.tasks[l[k]]);
      NumberedSame(r.log, n.tasks[l[k]], r.tasks[l[k]]);
    }
  }

  lemma DrawnGood(n: Node, src: nat, iv: nat, use: Use)
    requires Good(n) && DrawOk(n.log + [Draw(src, iv, Next(n, src), use)], Draw(src, iv, Next(n, src), use))
    ensures Good(Drawn(n, src, iv, use))
  {
    var r := Drawn(n, src, iv, use);
    TracedGrows(n.log, Draw(src, iv, Next(n, src), use));
    ListGrows(n, r, n.active);
    ListGrows(n, r, n.pending);
  }

  // ---------- segments ----------

  lemma SendOneTraced(n: Node, s: nat, i: nat)
    requires s < |n.tasks| && i < TaskCount(n.tasks[s]) && Traced(n.log) && CountersOk(n) && TaskGood(n, n.tasks[s])
    ensures var r := SendOne(n, s, i).node; Traced(r.log) && CountersOk(r) && Extends(n, r) && TaskGood(r, r.tasks[s])
  {
    var t, r := n.tasks[s], SendOne(n, s, i).node;
    var d := r.log[|n.log|];
    assert r.log == n.log + [d];
    var j :| 0 <= j < |n.log| && IsMessageOf(n.log[j], t);
    if d.use.OnAir? {
      FrameOfMessage(d, n.log[j], t, i);
      assert r.log[j] == n.log[j];
    }
    TracedGrows(n.log, d);
    NumberedGrows(n.log, r.log, t);
    NumberedSame(r.log, t, r.tasks[s]);
  }

  lemma FrameOfMessage(d: Draw, m: Draw, t: TxTask, i: nat)
    requires i < TaskCount(t) <= MAX_SEGMENTS && IsMessageOf(m, t) && d.src == t.ctx.src && d.iv == t.ctx.iv
    requires InWindow(d.sqn, t.ctx.seqAuth)
    requires var c := t.ctx.(sqn := d.sqn); d.use == OnAir(c, SegPdu(c, t.pdu, i))
    ensures IsFrameOf(d, m, i)
  {
  }

  lemma NumberedSame(log: seq<Draw>, t: TxTask, u: TxTask)
    requires Numbered(log, t) && u.pdu == t.pdu && u.ctx == t.ctx.(sqn := u.ctx.sqn)
    ensures Numbered(log, u)
  {
    var i :| 0 <= i < |log| && IsMessageOf(log[i], t);
    assert IsMessageOf(log[i], u);
  }

  lemma {:induction false} SendFromTraced(n: Node, s: nat, i: nat)
    requires s < |n.tasks| && Traced(n.log) && CountersOk(n) && TaskGood(n, n.tasks[s])
    ensures var r := SendFrom(n, s, i).node; Traced(r.log) && CountersOk(r) && Extends(n, r) && TaskGood(r, r.tasks[s])
    decreases TaskCount(n.tasks[s]) - i
  {
    if i < TaskCount(n.tasks[s]) {
      if i in n.tasks[s].blockAck {
        SendFromTraced(n, s, i + 1);
      } else {
        SendOneTraced(n, s, i);
        var r := SendOne(n, s, i);
        assert TaskCount(r.node.tasks[s]) == TaskCount(n.tasks[s]);
        if r.ok {
          SendFromTraced(r.node, s, i + 1);
          assert SendFrom(n, s, i) == SendFrom(r.node, s, i + 1);
        } else {
          assert SendFrom(n, s, i) == r;
        }
      }
    }
  }

  lemma SentGood(n: Node, s: nat)
    requires Good(n) && s < |n.tasks| && TaskGood(n, n.tasks[s])
    ensures Good(SendFrom(n, s, 0).node)
  {
    var r := SendFrom(n, s, 0).node;
    SendFromTraced(n, s, 0);
    ListGrows(n, r, n.active);
    ListGrows(n, r, n.pending);
  }

  // ---------- the scheduler ----------

  lemma CutGood(n: Node, l: seq<nat>, k: nat)
    requires Below(l, |n.tasks|) && ListGood(n, l) && k < |l|
    ensures Below(l[..k] + l[k + 1..], |n.tasks|) && ListGood(n, l[..k] + l[k + 1..])
  {
    var m := l[..k] + l[k + 1..];
    assert forall j :: 0 <= j < |m| ==> m[j] == l[if j < k then j else j + 1];
  }

  lemma ReleaseGood(n: Node, s: nat)
    requires Good(n) && s in n.active
    ensures Good(Release(n, s))
  {
    var r := Release(n, s);
    var k := ReleaseCut(n, s);
    CutGood(n, n.active, k);
    ListGrows(n, r, r.active);
    ListGrows(n, r, r.pending);
  }

  lemma TakeGood(n: Node, k: nat)
    requires Good(n) && k < |n.pending|
    ensures Good(TakePending(n, k)) && TaskGood(TakePending(n, k), n.tasks[n.pending[k]])
  {
    var r := TakePending(n, k);
    assert forall j :: 0 <= j < |r.pending| ==> r.pending[j] == n.pending[if j < k then j else j + 1];
    CutGood(n, n.pending, k);
    ListGrows(n, r, r.active);
    ListGrows(n, r, r.pending);
  }

  lemma ActivateGood(n: Node, s: nat)
    requires Good(n) && s < |n.tasks| && TaskGood(n, n.tasks[s])
    ensures Good(Activate(n, s)) && TaskGood(Activate(n, s), n.tasks[s])
  {
    var r := Activate(n, s);
    assert forall t :: TaskGood(n, t) ==> TaskGood(r, t);
  }

  lemma {:induction false} FinishGood(n: Node, s: nat)
    requires Good(n) && s in n.active
    ensures Good(Finish(n, s)) && Extends(n, Finish(n, s))
    decreases |n.pending|, 0
  {
    ReleaseGood(n, s);
    var n1 := Release(n, s);
    var k := FirstRunnable(n1, 0);
    if k < |n1.pending| {
      TakeGood(n1, k);
      StartGood(TakePending(n1, k), n1.pending[k]);
    }
  }

  lemma {:induction false} StartGood(n: Node, s: nat)
    requires Good(n) && s < |n.tasks| && TaskGood(n, n.tasks[s])
    ensures Good(StartTask(n, s)) && Extends(n, StartTask(n, s))
    decreases |n.pending|, 1
  {
    ActivateGood(n, s);
    SentGood(Activate(n, s), s);
    SendFromTraced(Activate(n, s), s, 0);
    var sent := SendFrom(Activate(n, s), s, 0);
    if !sent.ok {
      assert sent.node.active[|n.active|] == s;
      FinishGood(sent.node, s);
    }
  }

  // ---------- every call ----------

  lemma WithTaskGood(n: Node, s: nat, t: TxTask)
    requires Good(n) && Sched(n) && s in n.active
    requires t == n.tasks[s].(blockAck := t.blockAck, retryTimes := t.retryTimes)
    ensures Good(WithTask(n, s, t)) && TaskGood(WithTask(n, s, t), t)
  {
    ListGrows(n, WithTask(n, s, t), n.active);
    ListGrows(n, WithTask(n, s, t), n.pending);
    ReleasedElsewhere(n, s);
    var k := FirstIndex(n.active, s);
    assert TaskGood(n, n.tasks[n.active[k]]);
    ListGrows(n, WithTask(n, s, t), [s]);
    assert WithTask(n, s, t).tasks[[s][0]] == t;
  }

  lemma ResendGood(n: Node, s: nat)
    requires Good(n) && s in n.active && TaskGood(n, n.tasks[s])
    ensures Good(Resend(n, s)) && Extends(n, Resend(n, s))
  {
    SentGood(n, s);
    SendFromTraced(n, s, 0);
    var r := SendFrom(n, s, 0).node;
    if !InWindow(r.tasks[s].ctx.sqn, r.tasks[s].ctx.seqAuth) { FinishGood(r, s); }
  }

  lemma TimeoutGood(n: Node, s: nat)
    requires Good(n) && Sched(n) && s in n.active
    ensures Good(Timeout(n, s)) && Extends(n, Timeout(n, s))
  {
    var t := Retried(n.tasks[s]);
    WithTaskGood(n, s, t);
    if t.retryTimes > n.retryLimit { FinishGood(WithTask(n, s, t), s); } else { ResendGood(WithTask(n, s, t), s); }
  }

  lemma ReceiveAckGood(n: Node, seqZero: nat, block: set<nat>)
    requires Good(n) && Sched(n)
    ensures Good(ReceiveAck(n, seqZero, block)) && Extends(n, ReceiveAck(n, seqZero, block))
  {
    match AckedSlot(n, seqZero, 0)
    case None =>
    case Some(s) =>
      var t := Retried(n.tasks[s]);
      if n.tasks[s].segBits == block || block == {} {
        FinishGood(n, s);
      } else if t.retryTimes > n.retryLimit {
        WithTaskGood(n, s, t);
        FinishGood(WithTask(n, s, t), s);
      } else {
        WithTaskGood(n, s, t.(blockAck := block));
        ResendGood(WithTask(n, s, t.(blockAck := block)), s);
      }
  }

  lemma StoreMessageGood(n: Node, ctx: MsgCtx, pdu: seq<byte>)
    requires Good(n) && Sched(n) && ctx.seg && OwnSource(n, ctx.src) && pdu != []
    requires Numbered(n.log, TxTask(ctx, pdu, Bits(SegCount(|pdu|, ctx.ctl)), {}, 0))
    ensures Good(StoreMessage(n, ctx, pdu)) && Extends(n, StoreMessage(n, ctx, pdu))
  {
    if StoreMessage(n, ctx, pdu) != n {
      var s := n.idle[0];
      var t := TxTask(ctx, pdu, Bits(SegCount(|pdu|, ctx.ctl)), {}, 0);
      var m := n.(idle := n.idle[1..], tasks := n.tasks[s := t]);
      FilledGood(n, m, t);
      if DstActive(m, ctx.dst) { PendGood(m, s); } else { StartGood(m, s); }
    }
  }

  lemma FilledGood(n: Node, m: Node, t: TxTask)
    requires Good(n) && Sched(n) && n.idle != [] && TaskGood(n, t)
    requires m == n.(idle := n.idle[1..], tasks := n.tasks[n.idle[0] := t])
    ensures Good(m) && TaskGood(m, t)
  {
    IdleHeadFree(n);
    ListGrows(n, m, n.active);
    ListGrows(n, m, n.pending);
  }

  lemma PendGood(m: Node, s: nat)
    requires Good(m) && s < |m.tasks| && TaskGood(m, m.tasks[s]) && m.tasks[s].blockAck == {}
    ensures Good(m.(pending := m.pending + [s]))
  {
    var r := m.(pending := m.pending + [s]);
    ListGrows(m, r, m.active);
    ListGrows(m, r, m.pending + [s]);
  }

  lemma PutGood(n: Node, c: MsgCtx, use: Use)
    requires Good(n) && !use.Refused? && (!c.ctl ==> use.ctx.sqn == Next(n, c.src))
    requires var d := Draw(c.src, c.iv, use.ctx.sqn, use); DrawOk(n.log + [d], d)
    ensures Good(PutToUse(n, c, use)) && Extends(n, PutToUse(n, c, use))
  {
    if c.ctl {
      var r := PutToUse(n, c, use);
      TracedGrows(n.log, r.log[|n.log|]);
      ListGrows(n, r, n.active);
      ListGrows(n, r, n.pending);
    } else {
      DrawnGood(n, c.src, c.iv, use);
    }
  }

  lemma SendMessageGood(n: Node, ctx: MsgCtx, pdu: seq<byte>)
    requires Good(n) && Sched(n) && OwnSource(n, ctx.src) && Fits(ctx)
    ensures Good(SendMessage(n, ctx, pdu)) && Extends(n, SendMessage(n, ctx, pdu))
  {
    hide StoreMessage, Storable, Sched;
    var c := WithNumber(n, ctx);
    if pdu == [] || !IsValidAddress(ctx.dst) {
      if !c.ctl { DrawnGood(n, c.src, c.iv, Refused); }
    } else if NeedsSegments(c, |pdu|) {
      var w := c.(seg := true);
      var m := PutToUse(n, w, SeqAuthUse(w, pdu));
      PutGood(n, w, SeqAuthUse(w, pdu));
      SameListsSched(n, m);
      assert IsMessageOf(m.log[|n.log|], TxTask(w, pdu, Bits(SegCount(|pdu|, w.ctl)), {}, 0));
      StoreMessageGood(m, w, pdu);
    } else {
      PutGood(n, c, FrameUse(c, pdu));
    }
  }

  lemma IvAppliedGood(n: Node, r: IvStep)
    requires Good(n) && IvValid(r.iv) && r.iv.index < 0x1_0000_0000
    ensures Good(IvApplied(n, r)) && Extends(n, IvApplied(n, r))
  {
    ListGrows(n, IvApplied(n, r), n.active);
    ListGrows(n, IvApplied(n, r), n.pending);
  }

  lemma DoGood(n: Node, e: Step)
    requires Good(n) && Sched(n) && Enabled(n, e)
    ensures Good(Do(n, e)) && Extends(n, Do(n, e))
  {
    match e
    case TakeNumber(src) =>
      ListGrows(n, Taken(n, src), n.active);
      ListGrows(n, Taken(n, src), n.pending);
    case Send(ctx, pdu) => SendMessageGood(n, ctx, pdu);
    case AckOut(src, dst, ttl, seqZero, block) =>
      var c := AckCtx(n, src, dst, ttl);
      DrawnGood(n, src, c.iv, AckUse(c, seqZero, block));
    case TimerFires(s) => TimeoutGood(n, s);
    case AckArrives(seqZero, block) => ReceiveAckGood(n, seqZero, block);
    case ClockTick => IvAppliedGood(n, Tick(n.iv, Busy(n)));
    case Beacon(index, state) => IvAppliedGood(n, Update(n.iv, index, state, Busy(n)));
  }

  lemma {:induction false} RunGood(n: Node, es: seq<Step>)
    requires Good(n) && Sched(n) && Legal(n, es)
    ensures Good(Exec(n, es)) && Extends(n, Exec(n, es))
    decreases |es|
  {
    if es != [] {
      DoGood(n, es[0]);
      DoSched(n, es[0]);
      RunGood(Do(n, es[0]), es[1..]);
    }
  }

  /** Every segment PDU sent in any run, first time or retransmitted, is a segment of a message the node
      numbered, and the receiver's macro recovers that message's SeqAuth from the numbers it carries. */
  lemma SegmentsOnAirAreRecoverable(n: Node, es: seq<Step>, i: nat)
    requires Initial(n) && Legal(n, es) && i < |Exec(n, es).log|
    requires Exec(n, es).log[i].use.OnAir? && Exec(n, es).log[i].use.ctx.seg
    ensures var log := Exec(n, es).log;
            exists j, k :: 0 <= j < |log| && IsFrameOf(log[i], log[j], k)
                           && RecoverSeqAuth(SeqZero(log[j].sqn), log[i].sqn) == log[j].sqn
  {
    InitialSched(n);
    RunGood(n, es);
    var log := Exec(n, es).log;
    assert DrawOk(log, log[i]);
    var j, k :| 0 <= j < |log| && IsFrameOf(log[i], log[j], k);
    WindowRecovers(log[j].sqn, log[i].sqn);
  }
}
