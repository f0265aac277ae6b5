// Exactly when an IV recovery endangers nonce freshness: it does so if and only if some stored message may
// still send. The code checks the busy flag for ordinary IV updates but not here.

module Recovery {
  import opened Bytes
  import opened Mesh
  import opened Segments
  import opened IvIndex
  import opened TxNode
  import opened Scheduler
  import opened Messages
  import opened Freshness

  ghost predicate Ok(n: Node) { Sched(n) && Good(n) }

  // ---------- reuse, once there, stays ----------

  lemma ReuseStays(l1: seq<Draw>, l2: seq<Draw>)
    requires l1 <= l2 && !NoReuse(l1)
    ensures !NoReuse(l2)
  {
    var i, j :| 0 <= i < j < |l1| && SameNonce(l1[i], l1[j]) && l1[i].sqn != SEQ_MAX;
    assert l2[i] == l1[i] && l2[j] == l1[j];
  }

  lemma FramesStayReused(l1: seq<Draw>, l2: seq<Draw>)
    requires l1 <= l2 && !FramesFresh(l1)
    ensures !FramesFresh(l2)
  {
    var i, j :| 0 <= i < j < |l1| && l1[i].use.OnAir? && l1[j].use.OnAir? && SameNonce(l1[i], l1[j]) && l1[i].sqn < SEQ_MAX;
    assert l2[i] == l1[i] && l2[j] == l1[j];
  }

  lemma MessagesStayReused(l1: seq<Draw>, l2: seq<Draw>)
    requires l1 <= l2 && !MessagesFresh(l1)
    ensures !MessagesFresh(l2)
  {
    var i, j :| 0 <= i < j < |l1| && NumbersMessage(l1[i]) && NumbersMessage(l1[j]) && SameNonce(l1[i], l1[j]) && l1[i].sqn < SEQ_MAX;
    assert l2[i] == l1[i] && l2[j] == l1[j];
  }

  /** A task that sends its first segment when the counter stands at its SeqAuth repeats its own number. */
  lemma SendingRepeats(n: Node, s: nat)
    requires Good(n) && s < |n.tasks| && TaskGood(n, n.tasks[s]) && 0 !in n.tasks[s].blockAck
    requires Next(n, n.tasks[s].ctx.src) == n.tasks[s].ctx.seqAuth < SEQ_MAX
    ensures !NoReuse(SendFrom(n, s, 0).node.log)
  {
    var t, m := n.tasks[s], SendOne(n, s, 0);
    var j :| 0 <= j < |n.log| && IsMessageOf(n.log[j], t);
    assert m.node.log[j] == n.log[j];
    assert SameNonce(m.node.log[j], m.node.log[|n.log|]);
    SendOneTraced(n, s, 0);
    if m.ok {
      SendFromTraced(m.node, s, 1);
      ReuseStays(m.node.log, SendFrom(m.node, s, 1).node.log);
    }
  }

  lemma ResendRepeats(n: Node, s: nat)
    requires Good(n) && Sched(n) && s in n.active && TaskGood(n, n.tasks[s]) && 0 !in n.tasks[s].blockAck
    requires Next(n, n.tasks[s].ctx.src) == n.tasks[s].ctx.seqAuth < SEQ_MAX
    ensures !NoReuse(Resend(n, s).log)
  {
    SendingRepeats(n, s);
    SentGood(n, s);
    var r := SendFrom(n, s, 0).node;
    if !InWindow(r.tasks[s].ctx.sqn, r.tasks[s].ctx.seqAuth) {
      FinishGood(r, s);
      ReuseStays(r.log, Finish(r, s).log);
    }
  }

  lemma StartRepeats(n: Node, s: nat)
    requires Good(n) && s < |n.tasks| && TaskGood(n, n.tasks[s]) && 0 !in n.tasks[s].blockAck
    requires Next(n, n.tasks[s].ctx.src) == n.tasks[s].ctx.seqAuth < SEQ_MAX
    ensures !NoReuse(StartTask(n, s).log)
  {
    ActivateGood(n, s);
    var a := Activate(n, s);
    SendingRepeats(a, s);
    SentGood(a, s);
    var sent := SendFrom(a, s, 0);
    if !sent.ok {
      assert sent.node.active[|n.active|] == s;
      FinishGood(sent.node, s);
      ReuseStays(sent.node.log, Finish(sent.node, s).log);
    }
  }

  // ---------- runs ----------

  lemma {:induction false} ExecAppend(n: Node, a: seq<Step>, b: seq<Step>)
    requires NodeOk(n) && IvValid(n.iv) && Legal(n, a) && Legal(Exec(n, a), b)
    ensures Legal(n, a + b) && Exec(n, a + b) == Exec(Exec(n, a), b)
    ensures Guarded(n, a) && Guarded(Exec(n, a), b) ==> Guarded(n, a + b)
    decreases |a|
  {
    hide Do, Enabled, UnguardedClear, Dutiful;
    if a == [] {
      assert a + b == b;
    } else {
      ExecAppend(Do(n, a[0]), a[1..], b);
      assert (a + b)[0] == a[0] && (a + b)[1..] == a[1..] + b;
    }
  }

  predicate Quiet(es: seq<Step>) { forall i :: 0 <= i < |es| ==> !es[i].Beacon? && !es[i].Send? }

  lemma {:induction false} QuietGuarded(n: Node, es: seq<Step>)
    requires NodeOk(n) && IvValid(n.iv) && Legal(n, es) && Quiet(es)
    ensures Guarded(n, es)
    decreases |es|
  {
    if es != [] {
      assert !es[0].Beacon? && !es[0].Send?;
      QuietGuarded(Do(n, es[0]), es[1..]);
    }
  }

  /** An acknowledgement to a valid address goes out under the counter's number and touches nothing but that counter
      and the log. */
  lemma AckDraws(n: Node, src: nat) returns (e: Step)
    requires Ok(n) && OwnSource(n, src)
    ensures !e.Beacon? && !e.Send? && Enabled(n, e) && Ok(Do(n, e))
    ensures var m := Do(n, e);
            && m == n.(counters := m.counters, log := m.log) && OwnSource(m, src)
            && (Next(n, src) < SEQ_MAX ==> Next(m, src) == Next(n, src) + 1)
            && exists u :: m.log == n.log + [Draw(src, TxIv(n.iv), Next(n, src), u)] && u.OnAir? && !u.ctx.seg && u.ctx.ctl
  {
    e := AckOut(src, 1, 0, 0, {});
    DoGood(n, e);
    DoSched(n, e);
    assert IsValidAddress(1);
    var u := AckUse(AckCtx(n, src, 1, 0), 0, {});
    assert Do(n, e).log == n.log + [Draw(src, TxIv(n.iv), Next(n, src), u)];
  }

  lemma {:induction false} RaiseCounter(n: Node, src: nat, k: nat) returns (es: seq<Step>)
    requires Ok(n) && OwnSource(n, src) && Next(n, src) + k <= SEQ_MAX
    ensures Quiet(es) && Legal(n, es)
    ensures var r := Exec(n, es);
            Ok(r) && r == n.(counters := r.counters, log := r.log) && Next(r, src) == Next(n, src) + k
    decreases k
  {
    if k == 0 {
      es := [];
    } else {
      var e := AckDraws(n, src);
      hide Good, Sched, Do, Enabled;
      var rest := RaiseCounter(Do(n, e), src, k - 1);
      Prepend(n, e, rest);
      es := [e] + rest;
    }
  }

  // ---------- a number comes round again ----------

  lemma QuietAppend(n: Node, a: seq<Step>, b: seq<Step>)
    requires NodeOk(n) && IvValid(n.iv) && Legal(n, a) && Quiet(a) && Legal(Exec(n, a), b) && Quiet(b)
    ensures Legal(n, a + b) && Quiet(a + b) && Exec(n, a + b) == Exec(Exec(n, a), b)
  {
    ExecAppend(n, a, b);
  }

  /** The counter stands at the number of draw i, under the same IV index. */
  ghost predicate ComesNext(n: Node, i: nat) {
    && Ok(n) && i < |n.log| && OwnSource(n, n.log[i].src) && n.log[i].iv == TxIv(n.iv)
    && Next(n, n.log[i].src) == n.log[i].sqn < SEQ_MAX
  }

  /** An acknowledgement then repeats the number, and the network nonce if draw i went on the air. */
  lemma AckRepeats(n: Node, i: nat) returns (es: seq<Step>)
    requires ComesNext(n, i)
    ensures Quiet(es) && Legal(n, es) && !NoReuse(Exec(n, es).log)
    ensures n.log[i].use.OnAir? ==> !FramesFresh(Exec(n, es).log)
  {
    var e := AckDraws(n, n.log[i].src);
    es := [e] + [];
    var m := Do(n, e);
    assert m.log[i] == n.log[i] && SameNonce(m.log[i], m.log[|n.log|]);
    OkValid(m);
    hide Do, Ok, Enabled;
    NothingAfter(m);
    Prepend(n, e, []);
  }

  lemma OkValid(n: Node)
    requires Ok(n)
    ensures NodeOk(n) && IvValid(n.iv)
  {
  }

  lemma NothingAfter(n: Node)
    requires NodeOk(n) && IvValid(n.iv)
    ensures Legal(n, []) && Exec(n, []) == n && Quiet([]) && Guarded(n, [])
  {
  }

  /** An access message, to be segmented, of one octet. */
  function AccessProbe(n: Node, src: nat): Step
    requires IvValid(n.iv)
  {
    Send(MsgCtx(src, 1, 0, false, true, false, false, 0, 0, TxIv(n.iv), 0, 0), [0])
  }

  lemma ProbeDraws(n: Node, src: nat)
    requires Ok(n) && OwnSource(n, src) && src < 0x1_0000
    ensures var e := AccessProbe(n, src);
            && Enabled(n, e) && Dutiful(n, e) && !UnguardedClear(n, e) && Ok(Do(n, e)) && |Do(n, e).log| > |n.log| && n.log <= Do(n, e).log
            && var d := Do(n, e).log[|n.log|];
               d.src == src && d.iv == TxIv(n.iv) && d.sqn == Next(n, src) && d.use.Message?
  {
    var e := AccessProbe(n, src);
    DoGood(n, e);
    DoSched(n, e);
    FirstDraw(n, e.ctx, e.pdu);
  }

  /** A segmented message then repeats the number, and the message's nonce if draw i numbered one. */
  lemma MessageRepeats(n: Node, i: nat) returns (es: seq<Step>)
    requires ComesNext(n, i) && n.log[i].src < 0x1_0000
    ensures Legal(n, es) && Guarded(n, es) && (NumbersMessage(n.log[i]) ==> !MessagesFresh(Exec(n, es).log))
  {
    var e := AccessProbe(n, n.log[i].src);
    ProbeDraws(n, n.log[i].src);
    es := [e];
    var m := Do(n, e);
    assert m.log[i] == n.log[i] && SameNonce(m.log[i], m.log[|n.log|]);
    OkValid(m);
    hide Do, Ok, Enabled, Dutiful;
    NothingAfter(m);
    assert es[0] == e && es[1..] == [];
  }

  // ---------- the first number a message uses ----------

  /** The number under which a message is sent, or the SeqAuth it gets. */
  function SentNumber(n: Node, ctx: MsgCtx, len: nat): nat { if ctx.ctl then ControlNumber(ctx, len) else Next(n, ctx.src) }

  /** A refused control message uses no number; a refused access message has drawn one. */
  predicate UsesNumber(n: Node, ctx: MsgCtx, pdu: seq<byte>)
    requires NodeOk(n)
  {
    ctx.ctl ==> pdu != [] && IsValidAddress(ctx.dst) && (NeedsSegments(ctx, |pdu|) ==> Storable(n, ctx.(seg := true), |pdu|))
  }

  lemma UnusedIsIdle(n: Node, ctx: MsgCtx, pdu: seq<byte>)
    requires NodeOk(n) && !UsesNumber(n, ctx, pdu)
    ensures SendMessage(n, ctx, pdu) == n
  {
  }

  /** Sent for segmentation. */
  predicate Splits(ctx: MsgCtx, pdu: seq<byte>) { pdu != [] && IsValidAddress(ctx.dst) && NeedsSegments(ctx, |pdu|) }

  lemma FirstDraw(n: Node, ctx: MsgCtx, pdu: seq<byte>)
    requires Ok(n) && Enabled(n, Send(ctx, pdu)) && UsesNumber(n, ctx, pdu)
    ensures var m := SendMessage(n, ctx, pdu);
            && |m.log| > |n.log| && n.log <= m.log && m.addr == n.addr && |m.counters| == |n.counters|
            && m.log[|n.log|].src == ctx.src && m.log[|n.log|].iv == ctx.iv && m.log[|n.log|].sqn == SentNumber(n, ctx, |pdu|)
            && (m.log[|n.log|].use.Message? <==> Splits(ctx, pdu)) && (pdu != [] && IsValidAddress(ctx.dst) ==> !m.log[|n.log|].use.Refused?)
  {
    DoGood(n, Send(ctx, pdu));
    var c := WithNumber(n, ctx);
    if Splits(ctx, pdu) {
      var w := c.(seg := true);
      var d := PutToUse(n, w, SeqAuthUse(w, pdu));
      PutGood(n, w, SeqAuthUse(w, pdu));
      SameListsSched(n, d);
      assert IsMessageOf(d.log[|n.log|], TxTask(w, pdu, Bits(SegCount(|pdu|, w.ctl)), {}, 0));
      StoreMessageGood(d, w, pdu);
      hide StoreMessage, Good, Sched;
      assert SendMessage(n, ctx, pdu) == StoreMessage(d, w, pdu);
    }
  }

  /** Every stored message can still be reached by the counter. */
  ghost predicate Reachable(n: Node, l: seq<nat>)
    requires Below(l, |n.tasks|)
  {
    forall k :: 0 <= k < |l| ==>
      n.tasks[l[k]].ctx.seqAuth < SEQ_MAX && Next(n, n.tasks[l[k]].ctx.src) <= n.tasks[l[k]].ctx.seqAuth
  }

  lemma OneMore(n: Node, es: seq<Step>, e: Step)
    requires Ok(n) && Legal(n, es) && Quiet(es) && !e.Beacon? && !e.Send? && Ok(Exec(n, es)) && Enabled(Exec(n, es), e)
    ensures Legal(n, es + [e]) && Quiet(es + [e]) && Exec(n, es + [e]) == Do(Exec(n, es), e)
  {
    var r := Exec(n, es);
    DoGood(r, e);
    assert [e][1..] == [] && Legal(Do(r, e), []);
    ExecAppend(n, es, [e]);
    assert Exec(r, [e]) == Exec(Do(r, e), []);
  }

  /** An active message with a retry left: advance the counter to its SeqAuth, then acknowledge it in part. */
  lemma RetryReuses(n: Node, s: nat) returns (es: seq<Step>)
    requires Ok(n) && Reachable(n, n.active) && s in n.active && !Exhausted(n, n.tasks[s])
    requires AckedSlot(n, SeqZero(n.tasks[s].ctx.seqAuth), 0) == Some(s)
    ensures Legal(n, es) && Quiet(es) && !NoReuse(Exec(n, es).log)
  {
    var t := n.tasks[s];
    var k := FirstIndex(n.active, s);
    assert TaskGood(n, n.tasks[n.active[k]]);
    assert n.tasks[n.active[k]].ctx.seqAuth < SEQ_MAX;
    var up := RaiseCounter(n, t.ctx.src, t.ctx.seqAuth - Next(n, t.ctx.src));
    var r := Exec(n, up);
    SameSlot(n, r, SeqZero(t.ctx.seqAuth), 0);
    var e := AckArrives(SeqZero(t.ctx.seqAuth), {31});
    assert AckFieldsFit(SeqZero(t.ctx.seqAuth), {31});
    OneMore(n, up, e);
    es := up + [e];
    PartialAckRepeats(r, s);
  }

  lemma {:induction false} SameSlot(n: Node, r: Node, z: nat, k: nat)
    requires NodeOk(n) && r == n.(counters := r.counters, log := r.log) && k <= |n.active|
    ensures AckedSlot(r, z, k) == AckedSlot(n, z, k)
    decreases |n.active| - k
  {
    if k < |n.active| { SameSlot(n, r, z, k + 1); }
  }

  /** Bit 31 of the mask belongs to no segment. */
  lemma PartialAckIs(n: Node, s: nat)
    requires Ok(n) && s in n.active && !Exhausted(n, n.tasks[s])
    requires AckedSlot(n, SeqZero(n.tasks[s].ctx.seqAuth), 0) == Some(s)
    ensures ReceiveAck(n, SeqZero(n.tasks[s].ctx.seqAuth), {31})
            == Resend(WithTask(n, s, Retried(n.tasks[s]).(blockAck := {31})), s)
  {
    var k := FirstIndex(n.active, s);
    assert TaskGood(n, n.tasks[n.active[k]]);
    assert 31 !in n.tasks[s].segBits;
    hide Resend, Finish;
  }

  lemma PartialAckRepeats(n: Node, s: nat)
    requires Ok(n) && s in n.active && !Exhausted(n, n.tasks[s])
    requires AckedSlot(n, SeqZero(n.tasks[s].ctx.seqAuth), 0) == Some(s)
    requires Next(n, n.tasks[s].ctx.src) == n.tasks[s].ctx.seqAuth < SEQ_MAX
    ensures !NoReuse(ReceiveAck(n, SeqZero(n.tasks[s].ctx.seqAuth), {31}).log)
  {
    PartialAckIs(n, s);
    PartlyAcked(n, s);
    hide *;
    ResendRepeats(WithTask(n, s, Retried(n.tasks[s]).(blockAck := {31})), s);
  }

  lemma PartlyAcked(n: Node, s: nat)
    requires Ok(n) && s in n.active
    ensures var m := WithTask(n, s, Retried(n.tasks[s]).(blockAck := {31}));
            && Good(m) && Sched(m) && s in m.active && s < |m.tasks| == |n.tasks| && TaskGood(m, m.tasks[s])
            && m.tasks[s].ctx == n.tasks[s].ctx && 0 !in m.tasks[s].blockAck
            && Next(m, n.tasks[s].ctx.src) == Next(n, n.tasks[s].ctx.src)
  {
    var t := Retried(n.tasks[s]).(blockAck := {31});
    WithTaskGood(n, s, t);
    WithTaskSched(n, s, t);
    hide Good, Sched, TaskGood;
  }

  /** A message waiting behind s: advance the counter to its SeqAuth, then cancel s so that it starts. */
  lemma CancelReuses(n: Node, s: nat, k: nat) returns (es: seq<Step>)
    requires Ok(n) && Reachable(n, n.pending) && s in n.active
    requires AckedSlot(n, SeqZero(n.tasks[s].ctx.seqAuth), 0) == Some(s)
    requires k == FirstRunnable(Release(n, s), 0) && k < |n.pending|
    ensures Legal(n, es) && Quiet(es) && !NoReuse(Exec(n, es).log)
  {
    var p := n.tasks[n.pending[k]];
    assert TaskGood(n, p);
    var up := RaiseCounter(n, p.ctx.src, p.ctx.seqAuth - Next(n, p.ctx.src));
    var r := Exec(n, up);
    var z := SeqZero(n.tasks[s].ctx.seqAuth);
    SameSlot(n, r, z, 0);
    SameRunnable(Release(n, s), Release(r, s), 0);
    OneMore(n, up, AckArrives(z, {}));
    es := up + [AckArrives(z, {})];
    CancelStarts(r, s, k);
    assert Do(r, AckArrives(z, {})) == Finish(r, s);
  }

  lemma CancelStarts(n: Node, s: nat, k: nat)
    requires Ok(n) && s in n.active
    requires k == FirstRunnable(Release(n, s), 0) && k < |n.pending|
    requires var p := n.tasks[n.pending[k]]; Next(n, p.ctx.src) == p.ctx.seqAuth < SEQ_MAX
    ensures !NoReuse(Finish(n, s).log)
  {
    hide StartTask, Finish, Good, Sched;
    SlotInPool(n, s);
    FinishStarts(n, s, k);
    ReleaseGood(n, s);
    TakeStartRepeats(Release(n, s), k);
  }

  lemma SlotInPool(n: Node, s: nat)
    requires Sched(n) && s in n.active
    ensures NodeOk(n) && s < |n.tasks|
  {
  }

  lemma FinishStarts(n: Node, s: nat, k: nat)
    requires NodeOk(n) && s < |n.tasks| && k == FirstRunnable(Release(n, s), 0) && k < |n.pending|
    ensures NodeOk(TakePending(Release(n, s), k))
    ensures Finish(n, s) == StartTask(TakePending(Release(n, s), k), n.pending[k])
  {
    hide StartTask;
  }

  lemma TakeStartRepeats(n: Node, k: nat)
    requires Good(n) && k < |n.pending|
    requires var p := n.tasks[n.pending[k]]; Next(n, p.ctx.src) == p.ctx.seqAuth < SEQ_MAX
    ensures NodeOk(TakePending(n, k)) && !NoReuse(StartTask(TakePending(n, k), n.pending[k]).log)
  {
    TakeGood(n, k);
    StartRepeats(TakePending(n, k), n.pending[k]);
  }

  lemma {:induction false} SameRunnable(n: Node, r: Node, k: nat)
    requires NodeOk(n) && r == n.(counters := r.counters, log := r.log) && k <= |n.pending|
    ensures FirstRunnable(r, k) == FirstRunnable(n, k)
    decreases |n.pending| - k
  {
    assert forall d :: DstActive(n, d) <==> DstActive(r, d);
    if k < |n.pending| { SameRunnable(n, r, k + 1); }
  }

  /** Cancelling s when nothing waits for its destination only removes it. */
  lemma CancelOnly(n: Node, s: nat)
    requires Ok(n) && MaySend(n) && s in n.active && Exhausted(n, n.tasks[s])
    requires Reachable(n, n.active) && Reachable(n, n.pending) && FirstRunnable(Release(n, s), 0) == |n.pending|
    ensures var r := Release(n, s);
            Finish(n, s) == r && NodeOk(r) && MaySend(r) && Reachable(r, r.active) && Reachable(r, r.pending)
            && |r.active| < |n.active|
  {
    hide StartTask, TaskFinished, Sched, Good, MaySend, Exhausted, Reachable;
    ReleaseOk(n, s);
    var c := ReleaseCut(n, s);
    CutReachable(n, Release(n, s), c);
    CutMaySend(n, Release(n, s), c);
  }

  lemma CutMaySend(n: Node, r: Node, c: nat)
    requires NodeOk(n) && MaySend(n) && c < |n.active| && Exhausted(n, n.tasks[n.active[c]])
    requires r == n.(active := n.active[..c] + n.active[c + 1..], idle := r.idle, iv := r.iv) && NodeOk(r)
    ensures MaySend(r)
  {
    if r.pending == [] {
      var k :| 0 <= k < |n.active| && !Exhausted(n, n.tasks[n.active[k]]);
      assert n.active[k] == r.active[if k < c then k else k - 1];
      assert !Exhausted(r, r.tasks[r.active[if k < c then k else k - 1]]);
    }
  }

  lemma ReleaseOk(n: Node, s: nat)
    requires Sched(n) && s in n.active
    ensures NodeOk(n) && s < |n.tasks| && NodeOk(Release(n, s))
  {
  }

  lemma CutReachable(n: Node, r: Node, c: nat)
    requires NodeOk(n) && Reachable(n, n.active) && Reachable(n, n.pending) && c < |n.active|
    requires r == n.(active := n.active[..c] + n.active[c + 1..], idle := r.idle, iv := r.iv) && NodeOk(r)
    ensures Reachable(r, r.active) && Reachable(r, r.pending)
  {
    assert forall j :: 0 <= j < |r.active| ==> r.active[j] == n.active[if j < c then j else j + 1];
  }

  /** An active slot that an acknowledgement can address. */
  lemma Addressable(n: Node) returns (s: nat)
    requires Ok(n) && MaySend(n)
    ensures s in n.active && AckedSlot(n, SeqZero(n.tasks[s].ctx.seqAuth), 0) == Some(s)
  {
    if n.pending != [] {
      assert DstActive(n, Dst(n, n.pending[0]));
    }
    s := AckedSlot(n, SeqZero(n.tasks[n.active[0]].ctx.seqAuth), 0).value;
  }

  lemma Prepend(n: Node, e: Step, rest: seq<Step>)
    requires Ok(n) && Enabled(n, e) && !e.Beacon? && !e.Send? && Ok(Do(n, e)) && Legal(Do(n, e), rest) && Quiet(rest)
    ensures Legal(n, [e] + rest) && Quiet([e] + rest) && Exec(n, [e] + rest) == Exec(Do(n, e), rest)
  {
    hide Do;
    assert ([e] + rest)[0] == e && ([e] + rest)[1..] == rest;
  }

  /** From any such state there is a continuation, without further IV messages, that repeats a number. */
  lemma {:induction false} StoredMessageReuses(n: Node) returns (es: seq<Step>)
    requires Ok(n) && MaySend(n) && Reachable(n, n.active) && Reachable(n, n.pending)
    ensures Legal(n, es) && Quiet(es) && !NoReuse(Exec(n, es).log)
    decreases |n.active|
  {
    var s := Addressable(n);
    ReleaseSched(n, s);
    var k := FirstRunnable(Release(n, s), 0);
    if !Exhausted(n, n.tasks[s]) {
      es := RetryReuses(n, s);
    } else if k < |n.pending| {
      es := CancelReuses(n, s, k);
    } else {
      var e := AckArrives(SeqZero(n.tasks[s].ctx.seqAuth), {});
      CancelOnly(n, s);
      DoGood(n, e);
      DoSched(n, e);
      assert Do(n, e) == Finish(n, s);
      var rest := StoredMessageReuses(Do(n, e));
      Prepend(n, e, rest);
      es := [e] + rest;
    }
  }

  // ---------- the exact condition ----------

  /** From a state that any guarded run leads to, take an IV recovery that clears the counters, with every
      stored SeqAuth below the maximum. Numbers stay unrepeated in every guarded continuation if and only if
      no message is pending and every active one is out of retries. */
  lemma RecoveryIsSafeIffNothingMaySend(n: Node, e: Step)
    requires Ok(n) && Fresh(n) && Enabled(n, e) && e.Beacon? && Update(n.iv, e.index, e.state, Busy(n)).clear
    requires forall k :: 0 <= k < |n.active| ==> n.tasks[n.active[k]].ctx.seqAuth < SEQ_MAX
    requires forall k :: 0 <= k < |n.pending| ==> n.tasks[n.pending[k]].ctx.seqAuth < SEQ_MAX
    ensures IvValid(Do(n, e).iv)
    ensures (forall es | Legal(Do(n, e), es) && Guarded(Do(n, e), es) :: NoReuse(Exec(Do(n, e), es).log)) <==> !MaySend(n)
  {
    var m := Do(n, e);
    DoGood(n, e);
    DoSched(n, e);
    if MaySend(n) {
      ClearedReachable(n, m);
      var es := StoredMessageReuses(m);
      QuietGuarded(m, es);
      assert Legal(m, es) && Guarded(m, es) && !NoReuse(Exec(m, es).log);
    } else {
      DoFresh(n, e);
      forall es | Legal(m, es) && Guarded(m, es) ensures NoReuse(Exec(m, es).log) {
        RunFresh(m, es);
      }
    }
  }

  lemma ClearedReachable(n: Node, m: Node)
    requires Ok(n) && Ok(m) && MaySend(n) && m == Cleared(n).(iv := m.iv)
    requires forall k :: 0 <= k < |n.active| ==> n.tasks[n.active[k]].ctx.seqAuth < SEQ_MAX
    requires forall k :: 0 <= k < |n.pending| ==> n.tasks[n.pending[k]].ctx.seqAuth < SEQ_MAX
    ensures MaySend(m) && Reachable(m, m.active) && Reachable(m, m.pending)
  {
    if m.pending == [] {
      var k :| 0 <= k < |n.active| && !Exhausted(n, n.tasks[n.active[k]]);
      assert !Exhausted(m, m.tasks[m.active[k]]);
    }
    assert forall k :: 0 <= k < |m.active| ==> TaskGood(m, m.tasks[m.active[k]]);
    assert forall k :: 0 <= k < |m.pending| ==> TaskGood(m, m.tasks[m.pending[k]]);
  }
}
