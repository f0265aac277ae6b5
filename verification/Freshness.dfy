// No (source, IV index, sequence number) triple is put to use twice while the counter is below its maximum:
// the joint safety claim of the sequence counter, the IV machine and the transmit task pool.

module Freshness {
  import opened Bytes
  import opened Mesh
  import opened Segments
  import opened IvIndex
  import opened TxNode
  import opened Scheduler

  ghost predicate SameNonce(a: Draw, b: Draw) { a.src == b.src && a.iv == b.iv && a.sqn == b.sqn }

  /** Only the saturated value SEQ_MAX may repeat. */
  ghost predicate NoReuse(log: seq<Draw>) {
    forall i, j :: 0 <= i < j < |log| && SameNonce(log[i], log[j]) ==> log[i].sqn == SEQ_MAX
  }

  /** No two frames share a network nonce. */
  ghost predicate FramesFresh(log: seq<Draw>) {
    forall i, j :: 0 <= i < j < |log| && log[i].use.OnAir? && log[j].use.OnAir? && SameNonce(log[i], log[j]) ==> log[i].sqn >= SEQ_MAX
  }

  /** A draw whose number is an application or device nonce: that of a segmented message, or an unsegmented
      access frame. */
  predicate NumbersMessage(d: Draw) { d.use.Message? || (d.use.OnAir? && !d.use.ctx.seg && !d.use.ctx.ctl) }

  ghost predicate MessagesFresh(log: seq<Draw>) {
    forall i, j :: 0 <= i < j < |log| && NumbersMessage(log[i]) && NumbersMessage(log[j]) && SameNonce(log[i], log[j]) ==>
      log[i].sqn >= SEQ_MAX
  }

  /** Everything put to use under this IV is below the counters, but for the saturated value. */
  ghost predicate Behind(n: Node, iv: nat) {
    forall i :: 0 <= i < |n.log| && n.log[i].iv == iv && OwnSource(n, n.log[i].src) ==>
      n.log[i].sqn < Next(n, n.log[i].src) || Next(n, n.log[i].src) == SEQ_MAX || n.log[i].sqn == SEQ_MAX
  }

  ghost predicate UpTo(log: seq<Draw>, b: int) { forall i :: 0 <= i < |log| ==> log[i].iv <= b }

  /** The next timeout or partial acknowledgement finishes this task instead of sending again. */
  predicate Exhausted(n: Node, t: TxTask) { Retried(t).retryTimes > n.retryLimit }

  ghost predicate Safe(n: Node, t: TxTask) { t.ctx.iv <= TxIv(n.iv) && Behind(n, t.ctx.iv) }

  /** Tasks that may still send are safe to send. */
  ghost predicate ActiveOk(n: Node)
    requires NodeOk(n)
  {
    forall k :: 0 <= k < |n.active| ==> Exhausted(n, n.tasks[n.active[k]]) || Safe(n, n.tasks[n.active[k]])
  }

  ghost predicate PendingOk(n: Node)
    requires NodeOk(n)
  {
    forall k :: 0 <= k < |n.pending| ==> Safe(n, n.tasks[n.pending[k]])
  }

  ghost predicate Fresh(n: Node) {
    && NodeOk(n) && IvValid(n.iv)
    && NoReuse(n.log) && UpTo(n.log, TxIv(n.iv)) && Behind(n, TxIv(n.iv))
    && ActiveOk(n) && PendingOk(n)
  }

  // ---------- drawing ----------

  /** What drawing numbers under one IV does to the log. */
  ghost predicate Grows(n: Node, r: Node, iv: nat) {
    && NoReuse(r.log)
    && (forall j :: Behind(n, j) ==> Behind(r, j))
    && (forall b :: UpTo(n.log, b) && iv <= b ==> UpTo(r.log, b))
  }

  lemma DrawnGrows(n: Node, src: nat, iv: nat, use: Use)
    requires NoReuse(n.log) && Behind(n, iv)
    ensures Grows(n, Drawn(n, src, iv, use), iv)
  {
    var r := Drawn(n, src, iv, use);
    assert forall i :: 0 <= i < |n.log| ==> r.log[i] == n.log[i];
    forall j | Behind(n, j) ensures Behind(r, j) { DrawnBehind(n, src, iv, use, j); }
  }

  lemma DrawnBehind(n: Node, src: nat, iv: nat, use: Use, j: nat)
    requires Behind(n, j)
    ensures Behind(Drawn(n, src, iv, use), j)
  {
    var r := Drawn(n, src, iv, use);
    assert forall i :: 0 <= i < |n.log| ==> r.log[i] == n.log[i];
    assert forall x :: OwnSource(n, x) ==> Next(r, x) == Next(n, x) || Next(r, x) == Next(n, x) + 1;
  }

  lemma GrowsTrans(n: Node, m: Node, r: Node, iv: nat)
    requires Grows(n, m, iv) && Grows(m, r, iv)
    ensures Grows(n, r, iv)
  {
  }

  lemma {:induction false} SendFromGrows(n: Node, s: nat, i: nat)
    requires s < |n.tasks| && NoReuse(n.log) && Behind(n, n.tasks[s].ctx.iv)
    ensures Grows(n, SendFrom(n, s, i).node, n.tasks[s].ctx.iv)
    decreases TaskCount(n.tasks[s]) - i
  {
    var iv := n.tasks[s].ctx.iv;
    if i < TaskCount(n.tasks[s]) {
      if i in n.tasks[s].blockAck {
        SendFromGrows(n, s, i + 1);
      } else {
        var m := SendOne(n, s, i).node;
        SendOneGrows(n, s, i);
        if SendOne(n, s, i).ok {
          SendFromGrows(m, s, i + 1);
          GrowsTrans(n, m, SendFrom(m, s, i + 1).node, iv);
        }
      }
    }
  }

  lemma SendOneGrows(n: Node, s: nat, i: nat)
    requires s < |n.tasks| && i < TaskCount(n.tasks[s]) && NoReuse(n.log) && Behind(n, n.tasks[s].ctx.iv)
    ensures Grows(n, SendOne(n, s, i).node, n.tasks[s].ctx.iv)
  {
    var m := SendOne(n, s, i).node;
    var use := m.log[|n.log|].use;
    var d := Drawn(n, n.tasks[s].ctx.src, n.tasks[s].ctx.iv, use);
    DrawnGrows(n, n.tasks[s].ctx.src, n.tasks[s].ctx.iv, use);
    assert m == d.(tasks := m.tasks);
    assert forall j :: Behind(d, j) ==> Behind(m, j);
  }

  // ---------- the scheduler ----------

  lemma SentFresh(n: Node, s: nat)
    requires Fresh(n) && s < |n.tasks| && Safe(n, n.tasks[s])
    ensures Fresh(SendFrom(n, s, 0).node)
  {
    var r := SendFrom(n, s, 0).node;
    SendFromGrows(n, s, 0);
    assert forall x :: 0 <= x < |n.tasks| ==>
      r.tasks[x].ctx.iv == n.tasks[x].ctx.iv && r.tasks[x].retryTimes == n.tasks[x].retryTimes;
  }

  /** A raised transmit IV has no draw yet. */
  lemma RaisedIvUnused(n: Node, iv: nat)
    requires UpTo(n.log, TxIv(n.iv)) && iv > TxIv(n.iv)
    ensures Behind(n, iv)
  {
  }

  lemma ReleaseFresh(n: Node, s: nat)
    requires Fresh(n) && s < |n.tasks| && s in n.active
    ensures Fresh(Release(n, s))
  {
    var r := Release(n, s);
    var k := ReleaseCut(n, s);
    assert forall iv :: Behind(n, iv) ==> Behind(r, iv);
    if TxIv(r.iv) > TxIv(n.iv) { RaisedIvUnused(n, TxIv(r.iv)); }
    CutActiveOk(n, r, k);
  }

  lemma CutActiveOk(n: Node, r: Node, k: nat)
    requires NodeOk(n) && NodeOk(r) && ActiveOk(n) && PendingOk(n) && k < |n.active| && TxIv(n.iv) <= TxIv(r.iv)
    requires r == n.(active := n.active[..k] + n.active[k + 1..], idle := r.idle, iv := r.iv)
    requires forall iv :: Behind(n, iv) ==> Behind(r, iv)
    ensures ActiveOk(r) && PendingOk(r)
  {
    assert forall j :: 0 <= j < |r.active| ==> r.active[j] == n.active[if j < k then j else j + 1];
    assert forall t :: Safe(n, t) ==> Safe(r, t);
  }

  lemma TakeFresh(n: Node, k: nat)
    requires Fresh(n) && k < |n.pending|
    ensures Fresh(TakePending(n, k)) && Safe(TakePending(n, k), n.tasks[n.pending[k]])
  {
    var r := TakePending(n, k);
    assert forall iv :: Behind(n, iv) ==> Behind(r, iv);
    assert forall j :: 0 <= j < |r.pending| ==> r.pending[j] == n.pending[if j < k then j else j + 1];
  }

  lemma ActivateFresh(n: Node, s: nat)
    requires Fresh(n) && s < |n.tasks| && Safe(n, n.tasks[s])
    ensures Fresh(Activate(n, s)) && Safe(Activate(n, s), n.tasks[s])
  {
    var r := Activate(n, s);
    assert forall iv :: Behind(n, iv) ==> Behind(r, iv);
  }

  lemma {:induction false} FinishFresh(n: Node, s: nat)
    requires NodeOk(n) && s < |n.tasks| && Fresh(Release(n, s))
    ensures Fresh(Finish(n, s))
    decreases |n.pending|, 0
  {
    var n1 := Release(n, s);
    var k := FirstRunnable(n1, 0);
    if k < |n1.pending| {
      TakeFresh(n1, k);
      StartFresh(TakePending(n1, k), n1.pending[k]);
    }
  }

  lemma {:induction false} StartFresh(n: Node, s: nat)
    requires Fresh(n) && s < |n.tasks| && Safe(n, n.tasks[s])
    ensures Fresh(StartTask(n, s))
    decreases |n.pending|, 1
  {
    ActivateFresh(n, s);
    SentFresh(Activate(n, s), s);
    var sent := SendFrom(Activate(n, s), s, 0);
    if !sent.ok {
      assert sent.node.active[|n.active|] == s;
      ReleaseFresh(sent.node, s);
      FinishFresh(sent.node, s);
    }
  }

  // ---------- every call ----------

  lemma WithTaskFresh(n: Node, s: nat, t: TxTask)
    requires Fresh(n) && s < |n.tasks| && t.ctx == n.tasks[s].ctx && Safe(n, t)
    ensures Fresh(WithTask(n, s, t)) && Safe(WithTask(n, s, t), t)
  {
    var r := WithTask(n, s, t);
    assert forall iv :: Behind(n, iv) ==> Behind(r, iv);
    assert forall x :: 0 <= x < |n.tasks| ==> r.tasks[x].ctx == n.tasks[x].ctx;
  }

  lemma ResendFresh(n: Node, s: nat)
    requires Fresh(n) && s in n.active && Safe(n, n.tasks[s])
    ensures Fresh(Resend(n, s))
  {
    SentFresh(n, s);
    var r := SendFrom(n, s, 0).node;
    if !InWindow(r.tasks[s].ctx.sqn, r.tasks[s].ctx.seqAuth) {
      ReleaseFresh(r, s);
      FinishFresh(r, s);
    }
  }

  /** Giving up: the retry counter no longer matters because the task leaves the active list. */
  lemma LastTryFresh(n: Node, s: nat, t: TxTask)
    requires Fresh(n) && Sched(n) && s in n.active && t.ctx == n.tasks[s].ctx
    ensures Fresh(Finish(WithTask(n, s, t), s))
  {
    ReleaseFresh(n, s);
    ReleasedElsewhere(n, s);
    var r, m := Release(n, s), Release(WithTask(n, s, t), s);
    assert m == r.(tasks := m.tasks);
    assert forall u :: Safe(r, u) ==> Safe(m, u) by { assert forall iv :: Behind(r, iv) ==> Behind(m, iv); }
    FinishFresh(WithTask(n, s, t), s);
  }

  lemma RetryFresh(n: Node, s: nat, t: TxTask)
    requires Fresh(n) && Sched(n) && s in n.active && t.ctx == n.tasks[s].ctx && !Exhausted(n, n.tasks[s])
    ensures Fresh(Resend(WithTask(n, s, t), s))
  {
    assert Safe(n, n.tasks[s]);
    WithTaskFresh(n, s, t);
    ResendFresh(WithTask(n, s, t), s);
  }

  lemma TimeoutFresh(n: Node, s: nat)
    requires Fresh(n) && Sched(n) && s in n.active
    ensures Fresh(Timeout(n, s))
  {
    var t := Retried(n.tasks[s]);
    if t.retryTimes > n.retryLimit { LastTryFresh(n, s, t); } else { RetryFresh(n, s, t); }
  }

  lemma ReceiveAckFresh(n: Node, seqZero: nat, block: set<nat>)
    requires Fresh(n) && Sched(n)
    ensures Fresh(ReceiveAck(n, seqZero, block))
  {
    match AckedSlot(n, seqZero, 0)
    case None =>
    case Some(s) =>
      var t := Retried(n.tasks[s]);
      if n.tasks[s].segBits == block || block == {} {
        ReleaseFresh(n, s);
        FinishFresh(n, s);
      } else if t.retryTimes > n.retryLimit {
        LastTryFresh(n, s, t);
      } else {
        RetryFresh(n, s, t.(blockAck := block));
      }
  }

  lemma DrawnFresh(n: Node, src: nat, use: Use)
    requires Fresh(n)
    ensures Fresh(Drawn(n, src, TxIv(n.iv), use))
  {
    DrawnGrows(n, src, TxIv(n.iv), use);
  }

  lemma StoreMessageFresh(n: Node, ctx: MsgCtx, pdu: seq<byte>)
    requires Fresh(n) && Sched(n) && ctx.iv == TxIv(n.iv)
    ensures Fresh(StoreMessage(n, ctx, pdu))
  {
    assert NodeOk(n);
    hide Fresh, Sched, StartTask;
    if Storable(n, ctx, |pdu|) {
      var s := n.idle[0];
      var t := TxTask(ctx, pdu, Bits(SegCount(|pdu|, ctx.ctl)), {}, 0);
      var m := n.(idle := n.idle[1..], tasks := n.tasks[s := t]);
      FilledFresh(n, m, t);
      if DstActive(m, ctx.dst) {
        PendFresh(m, s);
      } else {
        StartFresh(m, s);
      }
    }
  }

  lemma FilledFresh(n: Node, m: Node, t: TxTask)
    requires Fresh(n) && Sched(n) && n.idle != [] && t.ctx.iv == TxIv(n.iv)
    requires m == n.(idle := n.idle[1..], tasks := n.tasks[n.idle[0] := t])
    ensures Fresh(m) && Safe(m, t)
  {
    IdleHeadFree(n);
    assert forall iv :: Behind(n, iv) ==> Behind(m, iv);
  }

  lemma PendFresh(m: Node, s: nat)
    requires Fresh(m) && s < |m.tasks| && m.tasks[s].ctx.iv == TxIv(m.iv)
    ensures Fresh(m.(pending := m.pending + [s]))
  {
    var r := m.(pending := m.pending + [s]);
    assert forall iv :: Behind(m, iv) ==> Behind(r, iv);
  }

  /** Some stored message may still draw a number. */
  predicate MaySend(n: Node)
    requires NodeOk(n)
  {
    n.pending != [] || exists k :: 0 <= k < |n.active| && !Exhausted(n, n.tasks[n.active[k]])
  }

  /** Clearing the counters is harmless when no stored message may send and the transmit IV has risen. */
  lemma ClearedFresh(n: Node, r: IvStep)
    requires Fresh(n) && !MaySend(n) && IvValid(r.iv) && r.clear && TxIv(r.iv) > TxIv(n.iv)
    ensures Fresh(IvApplied(n, r))
  {
    var m := IvApplied(n, r);
    RaisedIvUnused(m.(iv := n.iv), TxIv(r.iv));
    assert Behind(m, TxIv(m.iv));
  }

  lemma SameTxIvFresh(n: Node, r: IvStep)
    requires Fresh(n) && IvValid(r.iv) && !r.clear && TxIv(r.iv) == TxIv(n.iv)
    ensures Fresh(IvApplied(n, r))
  {
    var m := IvApplied(n, r);
    assert forall iv :: Behind(n, iv) ==> Behind(m, iv);
  }

  /** The one step the code does not guard: an IV recovery clears the counters whatever is stored. */
  predicate UnguardedClear(n: Node, e: Step)
    requires NodeOk(n) && Enabled(n, e)
  {
    e.Beacon? && Update(n.iv, e.index, e.state, Busy(n)).clear && MaySend(n)
  }

  /** Number q of src under this IV has been drawn and not put to use, or is the saturated one. */
  predicate Spare(n: Node, src: nat, iv: nat, q: nat) {
    && (q < Next(n, src) || q == SEQ_MAX)
    && forall i :: 0 <= i < |n.log| && n.log[i].src == src && n.log[i].iv == iv && n.log[i].sqn == q ==> q == SEQ_MAX
  }

  /** The number a control message is sent under: its SeqAuth if it is segmented. */
  function ControlNumber(c: MsgCtx, len: nat): nat { if NeedsSegments(c, len) then c.seqAuth else c.sqn }

  /** The caller's duty. A message context takes its IV index from meshx_iv_index_tx_get, and the context of a control
      message a number that was drawn for it and has not been used since. No layer checks either. */
  predicate Dutiful(n: Node, e: Step) {
    e.Send? ==> e.ctx.iv == TxIv(n.iv) && (e.ctx.ctl ==> Spare(n, e.ctx.src, e.ctx.iv, ControlNumber(e.ctx, |e.pdu|)))
  }

  /** The caller's number goes into use. */
  lemma UsedFresh(n: Node, c: MsgCtx, use: Use)
    requires Fresh(n) && !use.Refused? && c.ctl && c.iv == TxIv(n.iv) && Spare(n, c.src, c.iv, use.ctx.sqn)
    ensures Fresh(PutToUse(n, c, use))
  {
    var r := PutToUse(n, c, use);
    assert forall i :: 0 <= i < |n.log| ==> r.log[i] == n.log[i];
    assert forall iv :: Behind(n, iv) ==> Behind(r, iv);
  }

  lemma PutFresh(n: Node, c: MsgCtx, use: Use)
    requires Fresh(n) && !use.Refused? && c.iv == TxIv(n.iv) && (c.ctl ==> Spare(n, c.src, c.iv, use.ctx.sqn))
    ensures Fresh(PutToUse(n, c, use))
  {
    if c.ctl { UsedFresh(n, c, use); } else { DrawnFresh(n, c.src, use); }
  }

  lemma SendMessageFresh(n: Node, ctx: MsgCtx, pdu: seq<byte>)
    requires Fresh(n) && Sched(n) && Dutiful(n, Send(ctx, pdu))
    ensures Fresh(SendMessage(n, ctx, pdu))
  {
    assert NodeOk(n);
    hide Fresh, Sched, StoreMessage, Storable, Spare;
    var c := WithNumber(n, ctx);
    if pdu == [] || !IsValidAddress(ctx.dst) {
      DrawnFresh(n, c.src, Refused);
    } else if NeedsSegments(c, |pdu|) {
      var w := c.(seg := true);
      var m := PutToUse(n, w, SeqAuthUse(w, pdu));
      PutFresh(n, w, SeqAuthUse(w, pdu));
      SameListsSched(n, m);
      StoreMessageFresh(m, w, pdu);
    } else {
      PutFresh(n, c, FrameUse(c, pdu));
    }
  }

  lemma TakenFresh(n: Node, src: nat)
    requires Fresh(n)
    ensures Fresh(Taken(n, src))
  {
    var r := Taken(n, src);
    assert forall x :: OwnSource(n, x) ==> Next(r, x) == Next(n, x) || Next(r, x) == Next(n, x) + 1;
    assert forall iv :: Behind(n, iv) ==> Behind(r, iv);
  }

  lemma DoFresh(n: Node, e: Step)
    requires Fresh(n) && Sched(n) && Enabled(n, e) && !UnguardedClear(n, e) && Dutiful(n, e)
    ensures Fresh(Do(n, e))
  {
    match e
    case TakeNumber(src) => TakenFresh(n, src);
    case Send(ctx, pdu) => SendMessageFresh(n, ctx, pdu);
    case AckOut(src, dst, ttl, seqZero, block) => DrawnFresh(n, src, AckUse(AckCtx(n, src, dst, ttl), seqZero, block));
    case TimerFires(s) => TimeoutFresh(n, s);
    case AckArrives(seqZero, block) => ReceiveAckFresh(n, seqZero, block);
    case ClockTick =>
      var r := Tick(n.iv, Busy(n));
      if r.clear {
        NotBusyMeansNothingStored(n);
        ClearedFresh(n, r);
      } else {
        SameTxIvFresh(n, r);
      }
    case Beacon(index, state) =>
      var r := Update(n.iv, index, state, Busy(n));
      if r.clear { ClearedFresh(n, r); } else { SameTxIvFresh(n, r); }
  }

  // ---------- over whole runs ----------

  /** No IV recovery happens while a stored message may still send, and callers do their duty. */
  predicate Guarded(n: Node, es: seq<Step>)
    requires NodeOk(n) && IvValid(n.iv) && Legal(n, es)
    decreases |es|
  {
    es == [] || (!UnguardedClear(n, es[0]) && Dutiful(n, es[0]) && Guarded(Do(n, es[0]), es[1..]))
  }

  lemma InitialFresh(n: Node)
    requires Initial(n)
    ensures Fresh(n)
  {
  }

  lemma {:induction false} RunFresh(n: Node, es: seq<Step>)
    requires Fresh(n) && Sched(n) && Legal(n, es) && Guarded(n, es)
    ensures Fresh(Exec(n, es))
    decreases |es|
  {
    if es != [] {
      DoFresh(n, es[0]);
      DoSched(n, es[0]);
      RunFresh(Do(n, es[0]), es[1..]);
    }
  }

  /** Over every run of sends, retransmissions, acknowledgements, timeouts, ticks and beacons from a freshly
      initialised node, in which no IV recovery meets a message that may still send and callers do their duty, no number
      below SEQ_MAX is put to use twice. Recovery says exactly what such a recovery does, WrongIv what a context under
      the IV index itself does, and ControlNumbers what a control message under a used number does. */
  lemma NonceFreshness(n: Node, es: seq<Step>)
    requires Initial(n) && Legal(n, es) && Guarded(n, es)
    ensures NoReuse(Exec(n, es).log)
  {
    InitialFresh(n);
    InitialSched(n);
    RunFresh(n, es);
  }
}
