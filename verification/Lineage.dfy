// Which frames a node can send from a given state on: those of the messages stored there that may still send,
// inside their sequence windows, and frames under its transmit IV or a later one; and that new messages come only
// under the latter.

module Lineage {
  import opened Bytes
  import opened Mesh
  import opened Segments
  import opened IvIndex
  import opened TxNode
  import opened Scheduler
  import opened Messages
  import opened Freshness

  /** A stored message of n that may still send. */
  ghost predicate StoredMaySend(n: Node, t: TxTask)
    requires NodeOk(n)
  {
    (exists k :: 0 <= k < |n.pending| && n.tasks[n.pending[k]] == t)
    || (exists k :: 0 <= k < |n.active| && n.tasks[n.active[k]] == t && !Exhausted(n, t))
  }

  /** Source, IV index and SeqAuth of one of them. */
  ghost predicate StoredKey(n: Node, src: nat, iv: nat, seqAuth: nat)
    requires NodeOk(n)
  {
    exists t :: StoredMaySend(n, t) && t.ctx.src == src && t.ctx.iv == iv && t.ctx.seqAuth == seqAuth
  }

  /** The stored message is one of those, or newer than n. */
  ghost predicate Legit(n: Node, c: MsgCtx)
    requires NodeOk(n)
  {
    c.seg && (c.iv >= TxIv(n.iv) || StoredKey(n, c.src, c.iv, c.seqAuth))
  }

  ghost predicate FrameLegit(n: Node, d: Draw)
    requires NodeOk(n)
  {
    && (d.use.OnAir? ==> d.iv >= TxIv(n.iv) || exists q :: StoredKey(n, d.src, d.iv, q) && InWindow(d.sqn, q))
    && (NumbersMessage(d) ==> d.iv >= TxIv(n.iv))
  }

  ghost predicate LogLegit(n: Node, log: seq<Draw>)
    requires NodeOk(n)
  {
    forall i :: 0 <= i < |log| ==> FrameLegit(n, log[i])
  }

  /** What every state r that follows n keeps. */
  ghost predicate Descends(n: Node, r: Node)
    requires NodeOk(n)
  {
    && NodeOk(r) && r.retryLimit == n.retryLimit && TxIv(r.iv) >= TxIv(n.iv) && LogLegit(n, r.log)
    && (forall k :: 0 <= k < |r.active| ==> Exhausted(r, r.tasks[r.active[k]]) || Legit(n, r.tasks[r.active[k]].ctx))
    && (forall k :: 0 <= k < |r.pending| ==> Legit(n, r.tasks[r.pending[k]].ctx))
  }

  lemma LineageBegins(n: Node)
    requires NodeOk(n) && n.log == []
    requires forall k :: 0 <= k < |n.active| ==> n.tasks[n.active[k]].ctx.seg
    requires forall k :: 0 <= k < |n.pending| ==> n.tasks[n.pending[k]].ctx.seg
    ensures Descends(n, n)
  {
    forall k | 0 <= k < |n.active| ensures Exhausted(n, n.tasks[n.active[k]]) || Legit(n, n.tasks[n.active[k]].ctx) {
      if !Exhausted(n, n.tasks[n.active[k]]) { assert StoredMaySend(n, n.tasks[n.active[k]]); }
    }
    forall k | 0 <= k < |n.pending| ensures Legit(n, n.tasks[n.pending[k]].ctx) {
      assert StoredMaySend(n, n.tasks[n.pending[k]]);
    }
  }

  lemma StoredAreSegments(m: Node, d: Node)
    requires Good(m) && NodeOk(d) && d.tasks == m.tasks && d.active == m.active && d.pending == m.pending
    ensures forall k :: 0 <= k < |d.active| ==> d.tasks[d.active[k]].ctx.seg
    ensures forall k :: 0 <= k < |d.pending| ==> d.tasks[d.pending[k]].ctx.seg
  {
    assert forall k :: 0 <= k < |m.active| ==> TaskGood(m, m.tasks[m.active[k]]);
    assert forall k :: 0 <= k < |m.pending| ==> TaskGood(m, m.tasks[m.pending[k]]);
  }

  lemma {:induction false} SentLegit(n: Node, r: Node, s: nat, i: nat)
    requires NodeOk(n) && s < |r.tasks| && LogLegit(n, r.log) && Legit(n, r.tasks[s].ctx)
    ensures LogLegit(n, SendFrom(r, s, i).node.log)
    decreases TaskCount(r.tasks[s]) - i
  {
    hide StoredKey, SegPdu;
    if i < TaskCount(r.tasks[s]) {
      if i in r.tasks[s].blockAck {
        SentLegit(n, r, s, i + 1);
      } else {
        OneLegit(n, r, s, i);
        var m := SendOne(r, s, i);
        if m.ok { SentLegit(n, m.node, s, i + 1); }
      }
    }
  }

  lemma OneLegit(n: Node, r: Node, s: nat, i: nat)
    requires NodeOk(n) && s < |r.tasks| && LogLegit(n, r.log) && Legit(n, r.tasks[s].ctx) && i < TaskCount(r.tasks[s])
    ensures LogLegit(n, SendOne(r, s, i).node.log) && Legit(n, SendOne(r, s, i).node.tasks[s].ctx)
  {
    hide StoredKey, SegPdu;
    var m := SendOne(r, s, i).node;
    var d := m.log[|r.log|];
    assert m.log == r.log + [d];
    assert FrameLegit(n, d);
  }

  lemma SentDescends(n: Node, r: Node, s: nat)
    requires NodeOk(n) && Descends(n, r) && s < |r.tasks| && Legit(n, r.tasks[s].ctx)
    ensures Descends(n, SendFrom(r, s, 0).node) && Legit(n, SendFrom(r, s, 0).node.tasks[s].ctx)
  {
    SentLegit(n, r, s, 0);
    hide StoredKey, LogLegit;
    var m := SendFrom(r, s, 0).node;
    assert forall x :: 0 <= x < |r.tasks| ==>
      Legit(n, r.tasks[x].ctx) == Legit(n, m.tasks[x].ctx) && m.tasks[x].retryTimes == r.tasks[x].retryTimes;
  }

  lemma ReleaseDescends(n: Node, r: Node, s: nat)
    requires NodeOk(n) && Descends(n, r) && IvValid(r.iv) && s in r.active
    ensures s < |r.tasks| && Descends(n, Release(r, s)) && IvValid(Release(r, s).iv)
  {
    hide Legit, LogLegit;
    var m := Release(r, s);
    var k := ReleaseCut(r, s);
    assert forall j :: 0 <= j < |m.active| ==> m.active[j] == r.active[if j < k then j else j + 1];
    assert forall t :: Exhausted(m, t) == Exhausted(r, t);
  }

  lemma TakeDescends(n: Node, r: Node, k: nat)
    requires NodeOk(n) && Descends(n, r) && k < |r.pending|
    ensures Descends(n, TakePending(r, k)) && Legit(n, r.tasks[r.pending[k]].ctx)
  {
    hide Legit, LogLegit;
    var m := TakePending(r, k);
    assert forall j :: 0 <= j < |m.pending| ==> m.pending[j] == r.pending[if j < k then j else j + 1];
    assert forall t :: Exhausted(m, t) == Exhausted(r, t);
  }

  lemma ActivateDescends(n: Node, r: Node, s: nat)
    requires NodeOk(n) && Descends(n, r) && s < |r.tasks| && Legit(n, r.tasks[s].ctx)
    ensures Descends(n, Activate(r, s))
  {
    hide Legit, LogLegit;
    assert forall t :: Exhausted(Activate(r, s), t) == Exhausted(r, t);
  }

  lemma {:induction false} FinishDescends(n: Node, r: Node, s: nat)
    requires NodeOk(n) && NodeOk(r) && s < |r.tasks| && Descends(n, Release(r, s)) && IvValid(Release(r, s).iv)
    ensures Descends(n, Finish(r, s)) && IvValid(Finish(r, s).iv)
    decreases |r.pending|, 0
  {
    hide Descends, Legit, Release;
    var n1 := Release(r, s);
    assert NodeOk(n1) && |n1.pending| == |r.pending| && |n1.tasks| == |r.tasks| by { ReleaseKeeps(r, s); }
    var k := FirstRunnable(n1, 0);
    if k < |n1.pending| {
      TakeDescends(n, n1, k);
      StartDescends(n, TakePending(n1, k), n1.pending[k]);
    }
  }

  lemma ReleaseKeeps(r: Node, s: nat)
    requires NodeOk(r) && s < |r.tasks|
    ensures var m := Release(r, s); NodeOk(m) && m.pending == r.pending && m.tasks == r.tasks
  {
  }

  lemma {:induction false} StartDescends(n: Node, r: Node, s: nat)
    requires NodeOk(n) && Descends(n, r) && NodeOk(r) && IvValid(r.iv) && s < |r.tasks| && Legit(n, r.tasks[s].ctx)
    ensures Descends(n, StartTask(r, s)) && IvValid(StartTask(r, s).iv)
    decreases |r.pending|, 1
  {
    hide Descends, Legit;
    ActivateDescends(n, r, s);
    SentDescends(n, Activate(r, s), s);
    var sent := SendFrom(Activate(r, s), s, 0);
    if !sent.ok {
      assert sent.node.active[|r.active|] == s;
      ReleaseDescends(n, sent.node, s);
      FinishDescends(n, sent.node, s);
    }
  }

  lemma WithTaskDescends(n: Node, r: Node, s: nat, t: TxTask)
    requires NodeOk(n) && Descends(n, r) && s < |r.tasks| && t.ctx == r.tasks[s].ctx && Legit(n, t.ctx)
    ensures Descends(n, WithTask(r, s, t))
  {
    hide Legit, LogLegit;
    var m := WithTask(r, s, t);
    assert forall x :: 0 <= x < |r.tasks| ==> m.tasks[x].ctx == r.tasks[x].ctx;
    assert forall u :: Exhausted(m, u) == Exhausted(r, u);
  }

  lemma ResendDescends(n: Node, r: Node, s: nat)
    requires NodeOk(n) && Descends(n, r) && NodeOk(r) && IvValid(r.iv) && s in r.active && Legit(n, r.tasks[s].ctx)
    ensures Descends(n, Resend(r, s)) && IvValid(Resend(r, s).iv)
  {
    hide Descends, Legit;
    SentDescends(n, r, s);
    var m := SendFrom(r, s, 0).node;
    if !InWindow(m.tasks[s].ctx.sqn, m.tasks[s].ctx.seqAuth) {
      ReleaseDescends(n, m, s);
      FinishDescends(n, m, s);
    }
  }

  lemma LastTryDescends(n: Node, r: Node, s: nat, t: TxTask)
    requires NodeOk(n) && Descends(n, r) && Sched(r) && IvValid(r.iv) && s in r.active && t.ctx == r.tasks[s].ctx
    ensures Descends(n, Finish(WithTask(r, s, t), s)) && IvValid(Finish(WithTask(r, s, t), s).iv)
  {
    ReleaseDescends(n, r, s);
    ReleasedElsewhere(r, s);
    var a, b := Release(r, s), Release(WithTask(r, s, t), s);
    assert b == a.(tasks := b.tasks);
    OtherTaskDescends(n, a, s, t);
    FinishDescends(n, WithTask(r, s, t), s);
  }

  lemma OtherTaskDescends(n: Node, a: Node, s: nat, t: TxTask)
    requires NodeOk(n) && Descends(n, a) && s < |a.tasks|
    requires (forall k :: 0 <= k < |a.active| ==> a.active[k] != s) && (forall k :: 0 <= k < |a.pending| ==> a.pending[k] != s)
    ensures Descends(n, a.(tasks := a.tasks[s := t]))
  {
    hide Legit, LogLegit;
    assert forall u :: Exhausted(a.(tasks := a.tasks[s := t]), u) == Exhausted(a, u);
  }

  lemma RetryDescends(n: Node, r: Node, s: nat, t: TxTask)
    requires NodeOk(n) && Descends(n, r) && Sched(r) && IvValid(r.iv) && s in r.active && t.ctx == r.tasks[s].ctx
    requires !Exhausted(r, r.tasks[s])
    ensures Descends(n, Resend(WithTask(r, s, t), s)) && IvValid(Resend(WithTask(r, s, t), s).iv)
  {
    var k := FirstIndex(r.active, s);
    assert Legit(n, r.tasks[r.active[k]].ctx);
    hide Descends, Legit;
    WithTaskDescends(n, r, s, t);
    ResendDescends(n, WithTask(r, s, t), s);
  }

  lemma TimeoutDescends(n: Node, r: Node, s: nat)
    requires NodeOk(n) && Descends(n, r) && Sched(r) && IvValid(r.iv) && s in r.active
    ensures Descends(n, Timeout(r, s)) && IvValid(Timeout(r, s).iv)
  {
    hide Descends;
    var t := Retried(r.tasks[s]);
    if t.retryTimes > r.retryLimit { LastTryDescends(n, r, s, t); } else { RetryDescends(n, r, s, t); }
  }

  lemma AckDescends(n: Node, r: Node, z: nat, block: set<nat>)
    requires NodeOk(n) && Descends(n, r) && Sched(r) && IvValid(r.iv)
    ensures Descends(n, ReceiveAck(r, z, block)) && IvValid(ReceiveAck(r, z, block).iv)
  {
    hide Descends;
    match AckedSlot(r, z, 0)
    case None =>
    case Some(s) =>
      var t := Retried(r.tasks[s]);
      if r.tasks[s].segBits == block || block == {} {
        ReleaseDescends(n, r, s);
        FinishDescends(n, r, s);
      } else if t.retryTimes > r.retryLimit {
        LastTryDescends(n, r, s, t);
      } else {
        RetryDescends(n, r, s, t.(blockAck := block));
      }
  }

  lemma DrawnDescends(n: Node, r: Node, src: nat, use: Use)
    requires NodeOk(n) && Descends(n, r) && IvValid(r.iv)
    ensures Descends(n, Drawn(r, src, TxIv(r.iv), use))
  {
    hide StoredKey;
    var m := Drawn(r, src, TxIv(r.iv), use);
    assert FrameLegit(n, m.log[|r.log|]);
    assert forall i :: 0 <= i < |r.log| ==> m.log[i] == r.log[i];
    assert forall t :: Exhausted(m, t) == Exhausted(r, t);
  }

  lemma PutDescends(n: Node, r: Node, c: MsgCtx, use: Use)
    requires NodeOk(n) && Descends(n, r) && IvValid(r.iv) && c.iv == TxIv(r.iv) && !use.Refused?
    ensures Descends(n, PutToUse(r, c, use))
  {
    if c.ctl {
      hide StoredKey;
      var m := PutToUse(r, c, use);
      assert FrameLegit(n, m.log[|r.log|]);
      assert forall i :: 0 <= i < |r.log| ==> m.log[i] == r.log[i];
      assert forall t :: Exhausted(m, t) == Exhausted(r, t);
    } else {
      DrawnDescends(n, r, c.src, use);
    }
  }

  lemma TakenDescends(n: Node, r: Node, src: nat)
    requires NodeOk(n) && Descends(n, r) && IvValid(r.iv)
    ensures Descends(n, Taken(r, src))
  {
    hide Legit, LogLegit;
    assert forall t :: Exhausted(Taken(r, src), t) == Exhausted(r, t);
  }

  lemma SendDescends(n: Node, r: Node, ctx: MsgCtx, pdu: seq<byte>)
    requires NodeOk(n) && Descends(n, r) && Sched(r) && IvValid(r.iv) && ctx.iv == TxIv(r.iv)
    ensures Descends(n, SendMessage(r, ctx, pdu)) && IvValid(SendMessage(r, ctx, pdu).iv)
  {
    hide Descends, StoreMessage, Storable;
    var c := WithNumber(r, ctx);
    DrawnDescends(n, r, c.src, Refused);
    PutDescends(n, r, c, FrameUse(c, pdu));
    if NeedsSegments(c, |pdu|) {
      var w := c.(seg := true);
      var m := PutToUse(r, w, SeqAuthUse(w, pdu));
      PutDescends(n, r, w, SeqAuthUse(w, pdu));
      SameListsSched(r, m);
      StoreDescends(n, m, w, pdu);
    }
  }

  lemma StoreDescends(n: Node, r: Node, c: MsgCtx, pdu: seq<byte>)
    requires NodeOk(n) && Descends(n, r) && Sched(r) && IvValid(r.iv) && c.iv == TxIv(r.iv) && c.seg
    ensures Descends(n, StoreMessage(r, c, pdu)) && IvValid(StoreMessage(r, c, pdu).iv)
  {
    if StoreMessage(r, c, pdu) != r {
      var s := r.idle[0];
      var t := TxTask(c, pdu, Bits(SegCount(|pdu|, c.ctl)), {}, 0);
      var m := r.(idle := r.idle[1..], tasks := r.tasks[s := t]);
      IdleHeadFree(r);
      assert Legit(n, c);
      hide StartTask, LogLegit, StoredKey;
      OtherTaskDescends(n, r.(idle := r.idle[1..]), s, t);
      if DstActive(m, c.dst) {
        assert forall u :: Exhausted(m.(pending := m.pending + [s]), u) == Exhausted(m, u);
      } else {
        StartDescends(n, m, s);
      }
    }
  }

  lemma IvDescends(n: Node, r: Node, v: IvStep)
    requires NodeOk(n) && Descends(n, r) && IvValid(v.iv) && TxIv(v.iv) >= TxIv(r.iv)
    ensures Descends(n, IvApplied(r, v))
  {
    hide Legit, LogLegit;
    assert forall u :: Exhausted(IvApplied(r, v), u) == Exhausted(r, u);
  }

  lemma DoDescends(n: Node, r: Node, e: Step)
    requires NodeOk(n) && Descends(n, r) && Sched(r) && IvValid(r.iv) && Enabled(r, e) && Dutiful(r, e)
    ensures Descends(n, Do(r, e)) && IvValid(Do(r, e).iv)
  {
    hide Descends, SendMessage, Timeout, ReceiveAck;
    match e
    case TakeNumber(src) => TakenDescends(n, r, src);
    case Send(ctx, pdu) => SendDescends(n, r, ctx, pdu);
    case AckOut(src, dst, ttl, seqZero, block) => DrawnDescends(n, r, src, AckUse(AckCtx(r, src, dst, ttl), seqZero, block));
    case TimerFires(s) => TimeoutDescends(n, r, s);
    case AckArrives(seqZero, block) => AckDescends(n, r, seqZero, block);
    case ClockTick => IvDescends(n, r, Tick(r.iv, Busy(r)));
    case Beacon(index, state) => IvDescends(n, r, Update(r.iv, index, state, Busy(r)));
  }

  lemma {:induction false} RunDescends(n: Node, r: Node, es: seq<Step>)
    requires NodeOk(n) && Descends(n, r) && Sched(r) && NodeOk(r) && IvValid(r.iv) && Legal(r, es) && Guarded(r, es)
    ensures LogLegit(n, Exec(r, es).log)
    decreases |es|
  {
    hide Do, LogLegit;
    if es != [] {
      DoDescends(n, r, es[0]);
      DoSched(r, es[0]);
      RunDescends(n, Do(r, es[0]), es[1..]);
    }
  }
}
