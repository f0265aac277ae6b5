// What a node does next does not depend on its log.

module LogFree {
  import opened Bytes
  import opened Mesh
  import opened Segments
  import opened IvIndex
  import opened TxNode
  import opened Freshness

  function Detached(n: Node, k: nat): Node
    requires k <= |n.log|
  {
    n.(log := n.log[k..])
  }

  lemma DrawnDetached(n: Node, src: nat, iv: nat, use: Use, k: nat)
    requires k <= |n.log|
    ensures Drawn(Detached(n, k), src, iv, use) == Detached(Drawn(n, src, iv, use), k)
  {
    assert Drawn(n, src, iv, use).log[k..] == n.log[k..] + [Draw(src, iv, Next(n, src), use)];
  }

  lemma {:induction false} SendFromDetached(n: Node, s: nat, i: nat, k: nat)
    requires s < |n.tasks| && k <= |n.log|
    ensures n.log <= SendFrom(n, s, i).node.log
    ensures SendFrom(Detached(n, k), s, i) == Sent(Detached(SendFrom(n, s, i).node, k), SendFrom(n, s, i).ok)
    decreases TaskCount(n.tasks[s]) - i
  {
    hide SegPdu;
    if i < TaskCount(n.tasks[s]) {
      if i in n.tasks[s].blockAck {
        SendFromDetached(n, s, i + 1, k);
      } else {
        SendOneDetached(n, s, i, k);
        var r := SendOne(n, s, i);
        if r.ok { SendFromDetached(r.node, s, i + 1, k); }
      }
    }
  }

  lemma SendOneDetached(n: Node, s: nat, i: nat, k: nat)
    requires s < |n.tasks| && i < TaskCount(n.tasks[s]) && k <= |n.log|
    ensures n.log <= SendOne(n, s, i).node.log
    ensures SendOne(Detached(n, k), s, i) == Sent(Detached(SendOne(n, s, i).node, k), SendOne(n, s, i).ok)
  {
    hide SegPdu;
    var t, q := n.tasks[s], Next(n, n.tasks[s].ctx.src);
    var ctx := t.ctx.(sqn := q);
    var use := if InWindow(q, ctx.seqAuth) then OnAir(ctx, SegPdu(ctx, t.pdu, i)) else Refused;
    DrawnDetached(n, ctx.src, ctx.iv, use, k);
  }

  lemma {:induction false} RunnableDetached(n: Node, j: nat, k: nat)
    requires NodeOk(n) && j <= |n.pending| && k <= |n.log|
    ensures FirstRunnable(Detached(n, k), j) == FirstRunnable(n, j)
    decreases |n.pending| - j
  {
    assert forall d :: DstActive(n, d) <==> DstActive(Detached(n, k), d);
    if j < |n.pending| { RunnableDetached(n, j + 1, k); }
  }

  lemma {:induction false} FinishDetached(n: Node, s: nat, k: nat)
    requires NodeOk(n) && s < |n.tasks| && k <= |n.log|
    ensures n.log <= Finish(n, s).log && Finish(Detached(n, k), s) == Detached(Finish(n, s), k)
    decreases |n.pending|, 0
  {
    var n1 := Release(n, s);
    assert Release(Detached(n, k), s) == Detached(n1, k);
    RunnableDetached(n1, 0, k);
    var j := FirstRunnable(n1, 0);
    if j < |n1.pending| {
      assert TakePending(Detached(n1, k), j) == Detached(TakePending(n1, j), k);
      StartDetached(TakePending(n1, j), n1.pending[j], k);
    }
  }

  lemma {:induction false} StartDetached(n: Node, s: nat, k: nat)
    requires NodeOk(n) && s < |n.tasks| && k <= |n.log|
    ensures n.log <= StartTask(n, s).log && StartTask(Detached(n, k), s) == Detached(StartTask(n, s), k)
    decreases |n.pending|, 1
  {
    var a := Activate(n, s);
    assert Activate(Detached(n, k), s) == Detached(a, k);
    SendFromDetached(a, s, 0, k);
    var sent := SendFrom(a, s, 0);
    if !sent.ok { FinishDetached(sent.node, s, k); }
  }

  lemma ResendDetached(n: Node, s: nat, k: nat)
    requires NodeOk(n) && s < |n.tasks| && k <= |n.log|
    ensures n.log <= Resend(n, s).log && Resend(Detached(n, k), s) == Detached(Resend(n, s), k)
  {
    SendFromDetached(n, s, 0, k);
    FinishDetached(SendFrom(n, s, 0).node, s, k);
    hide Finish;
  }

  lemma TimeoutDetached(n: Node, s: nat, k: nat)
    requires NodeOk(n) && s in n.active && k <= |n.log|
    ensures n.log <= Timeout(n, s).log && Timeout(Detached(n, k), s) == Detached(Timeout(n, s), k)
  {
    hide Finish, Resend;
    var n1 := WithTask(n, s, Retried(n.tasks[s]));
    assert WithTask(Detached(n, k), s, Retried(n.tasks[s])) == Detached(n1, k);
    FinishDetached(n1, s, k);
    ResendDetached(n1, s, k);
  }

  lemma {:induction false} SlotDetached(n: Node, z: nat, j: nat, k: nat)
    requires NodeOk(n) && j <= |n.active| && k <= |n.log|
    ensures AckedSlot(Detached(n, k), z, j) == AckedSlot(n, z, j)
    decreases |n.active| - j
  {
    if j < |n.active| { SlotDetached(n, z, j + 1, k); }
  }

  lemma AckDetached(n: Node, z: nat, block: set<nat>, k: nat)
    requires NodeOk(n) && k <= |n.log|
    ensures n.log <= ReceiveAck(n, z, block).log && ReceiveAck(Detached(n, k), z, block) == Detached(ReceiveAck(n, z, block), k)
  {
    hide Finish, Resend;
    SlotDetached(n, z, 0, k);
    match AckedSlot(n, z, 0)
    case None =>
    case Some(s) =>
      var t := Retried(n.tasks[s]);
      FinishDetached(n, s, k);
      var n1, n2 := WithTask(n, s, t), WithTask(n, s, t.(blockAck := block));
      assert WithTask(Detached(n, k), s, t) == Detached(n1, k) && WithTask(Detached(n, k), s, t.(blockAck := block)) == Detached(n2, k);
      FinishDetached(n1, s, k);
      ResendDetached(n2, s, k);
  }

  lemma StoreDetached(n: Node, ctx: MsgCtx, pdu: seq<byte>, k: nat)
    requires NodeOk(n) && k <= |n.log|
    ensures n.log <= StoreMessage(n, ctx, pdu).log && StoreMessage(Detached(n, k), ctx, pdu) == Detached(StoreMessage(n, ctx, pdu), k)
  {
    hide StartTask;
    if n.idle != [] {
      var t := TxTask(ctx, pdu, Bits(SegCount(|pdu|, ctx.ctl)), {}, 0);
      var m := n.(idle := n.idle[1..], tasks := n.tasks[n.idle[0] := t]);
      assert Detached(n, k).(idle := n.idle[1..], tasks := n.tasks[n.idle[0] := t]) == Detached(m, k);
      StartDetached(m, n.idle[0], k);
      assert DstActive(Detached(m, k), ctx.dst) <==> DstActive(m, ctx.dst);
    }
  }

  lemma PutDetached(n: Node, c: MsgCtx, use: Use, k: nat)
    requires k <= |n.log| && !use.Refused?
    ensures n.log <= PutToUse(n, c, use).log && PutToUse(Detached(n, k), c, use) == Detached(PutToUse(n, c, use), k)
  {
    if c.ctl {
      var d := Draw(c.src, c.iv, use.ctx.sqn, use);
      assert (n.log + [d])[k..] == n.log[k..] + [d];
    } else {
      DrawnDetached(n, c.src, c.iv, use, k);
    }
  }

  lemma SendDetached(n: Node, ctx: MsgCtx, pdu: seq<byte>, k: nat)
    requires NodeOk(n) && k <= |n.log|
    ensures n.log <= SendMessage(n, ctx, pdu).log && SendMessage(Detached(n, k), ctx, pdu) == Detached(SendMessage(n, ctx, pdu), k)
  {
    hide StoreMessage, PutToUse;
    var c := WithNumber(n, ctx);
    DrawnDetached(n, c.src, c.iv, Refused, k);
    PutDetached(n, c, FrameUse(c, pdu), k);
    var w := c.(seg := true);
    PutDetached(n, w, SeqAuthUse(w, pdu), k);
    var m := PutToUse(n, w, SeqAuthUse(w, pdu));
    assert NodeOk(m) by { PutKeepsLists(n, w, SeqAuthUse(w, pdu)); }
    StoreDetached(m, w, pdu, k);
  }

  lemma PutKeepsLists(n: Node, c: MsgCtx, use: Use)
    requires NodeOk(n) && !use.Refused?
    ensures NodeOk(PutToUse(n, c, use))
  {
  }

  lemma DoDetached(n: Node, e: Step, k: nat)
    requires NodeOk(n) && IvValid(n.iv) && Enabled(n, e) && k <= |n.log|
    ensures Enabled(Detached(n, k), e) && n.log <= Do(n, e).log && Do(Detached(n, k), e) == Detached(Do(n, e), k)
  {
    hide SendMessage, Timeout, ReceiveAck;
    match e
    case TakeNumber(src) =>
    case Send(ctx, pdu) => SendDetached(n, ctx, pdu, k);
    case AckOut(src, dst, ttl, seqZero, block) =>
      var c := AckCtx(n, src, dst, ttl);
      DrawnDetached(n, src, c.iv, AckUse(c, seqZero, block), k);
    case TimerFires(s) => TimeoutDetached(n, s, k);
    case AckArrives(seqZero, block) => AckDetached(n, seqZero, block, k);
    case ClockTick =>
    case Beacon(_, _) =>
  }

  lemma {:induction false} ExecDetached(n: Node, es: seq<Step>, k: nat)
    requires NodeOk(n) && IvValid(n.iv) && Legal(n, es) && k <= |n.log|
    ensures Legal(Detached(n, k), es) && n.log <= Exec(n, es).log && Exec(Detached(n, k), es) == Detached(Exec(n, es), k)
    ensures Guarded(n, es) ==> Guarded(Detached(n, k), es)
    decreases |es|
  {
    if es != [] {
      hide Do, Enabled, Dutiful, UnguardedClear, Spare;
      DoDetached(n, es[0], k);
      if Dutiful(n, es[0]) && !UnguardedClear(n, es[0]) { StillDutiful(n, es[0], n.log[k..]); }
      ExecDetached(Do(n, es[0]), es[1..], k);
    }
  }

  // ---------- a log with entries left out ----------

  lemma DoThinned(n: Node, e: Step, l: seq<Draw>)
    requires NodeOk(n) && IvValid(n.iv) && Enabled(n, e)
    ensures var a := n.(log := l);
            && Enabled(a, e) && n.log <= Do(n, e).log && Do(a, e) == Do(n, e).(log := l + Do(n, e).log[|n.log|..])
  {
    var a := n.(log := l);
    DoDetached(n, e, |n.log|);
    DoDetached(a, e, |l|);
    assert Detached(n, |n.log|) == Detached(a, |l|);
    hide Do;
    assert Do(a, e).log == l + Do(a, e).log[|l|..];
  }

  /** Leaving entries out of the log keeps callers dutiful, and the run what it is. */
  lemma {:induction false} RunThinned(n: Node, es: seq<Step>, l: seq<Draw>)
    requires NodeOk(n) && IvValid(n.iv) && Legal(n, es) && Guarded(n, es) && forall i :: 0 <= i < |l| ==> l[i] in n.log
    ensures var a := n.(log := l);
            && Legal(a, es) && Guarded(a, es) && n.log <= Exec(n, es).log
            && Exec(a, es) == Exec(n, es).(log := l + Exec(n, es).log[|n.log|..])
    decreases |es|
  {
    hide Do, Enabled, Dutiful, UnguardedClear, NodeOk, IvValid;
    if es == [] {
      assert n.log[|n.log|..] == [] && l + [] == l;
    } else {
      var m := Do(n, es[0]);
      DoThinned(n, es[0], l);
      StillDutiful(n, es[0], l);
      var add := m.log[|n.log|..];
      assert m.log == n.log + add;
      RunThinned(m, es[1..], l + add);
      var a, b := n.(log := l), m.(log := l + add);
      assert NodeOk(a) && IvValid(a.iv) by { SameListsOk(n, l); }
      assert Do(a, es[0]) == b;
      RestOfLog(n.log, add, Exec(m, es[1..]).log, l);
    }
  }

  lemma RestOfLog(was: seq<Draw>, add: seq<Draw>, log: seq<Draw>, l: seq<Draw>)
    requires was + add <= log
    ensures was <= log && (l + add) + log[|was + add|..] == l + log[|was|..]
  {
    assert log[|was|..] == add + log[|was + add|..];
  }

  lemma SameListsOk(n: Node, l: seq<Draw>)
    requires NodeOk(n)
    ensures NodeOk(n.(log := l))
  {
  }

  lemma StillDutiful(n: Node, e: Step, l: seq<Draw>)
    requires NodeOk(n) && Enabled(n, e) && Dutiful(n, e) && !UnguardedClear(n, e) && forall i :: 0 <= i < |l| ==> l[i] in n.log
    ensures var a := n.(log := l); Enabled(a, e) && Dutiful(a, e) && !UnguardedClear(a, e)
  {
  }
}
