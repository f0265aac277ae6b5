// When lower transport takes, keeps and gives up a message.

module StoreRules {
  import opened Bytes
  import opened Mesh
  import opened Segments
  import opened TxNode
  import opened Scheduler
  import opened LogFree

  // ---------- whole or in segments ----------

  /** A message is sent whole if and only if its caller does not ask for segments and the PDU with its header octet
      leaves room for the network MIC in a packet's 20 octets. */
  lemma WholeIffItFits(c: MsgCtx, len: nat)
    ensures !NeedsSegments(c, len) <==> !c.seg && 1 + len + (if c.ctl then 8 else 4) <= 20
  {
  }

  // ---------- storing ----------

  /** A message is refused if and only if it needs more than 31 segments, no task is idle, or an active task has the same
      destination and SeqAuth; then nothing changes. */
  lemma RefusedIff(n: Node, c: MsgCtx, pdu: seq<byte>)
    requires Sched(n)
    ensures StoreMessage(n, c, pdu) == n <==>
              || (if c.ctl then |pdu| > 248 else |pdu| > 372)
              || |n.active| + |n.pending| == |n.tasks|
              || exists s :: s in n.active && s < |n.tasks| && n.tasks[s].ctx.dst == c.dst && n.tasks[s].ctx.seqAuth == c.seqAuth
  {
    SomeIdleIff(n);
    CountBound(|pdu|, c.ctl);
    ActiveExists(n, c.dst, c.seqAuth);
    hide TryTask, SegCount, AlreadySending, Sched;
    if n.idle != [] && Storable(n, c, |pdu|) {
      var t := TxTask(c, pdu, Bits(SegCount(|pdu|, c.ctl)), {}, 0);
      HeadUsed(n.(idle := n.idle[1..], tasks := n.tasks[n.idle[0] := t]), n, n.idle[0]);
    }
  }

  lemma CountBound(len: nat, ctl: bool)
    ensures SegCount(len, ctl) <= MAX_SEGMENTS <==> !(if ctl then len > 248 else len > 372)
  {
  }

  lemma ActiveExists(n: Node, dst: nat, seqAuth: nat)
    requires NodeOk(n)
    ensures AlreadySending(n, dst, seqAuth) <==>
              exists s :: s in n.active && s < |n.tasks| && n.tasks[s].ctx.dst == dst && n.tasks[s].ctx.seqAuth == seqAuth
  {
    if s :| s in n.active && s < |n.tasks| && n.tasks[s].ctx.dst == dst && n.tasks[s].ctx.seqAuth == seqAuth {
      var k := FirstIndex(n.active, s);
    }
  }

  lemma {:induction false} CountSlots(b: nat, m: multiset<nat>)
    requires forall s: nat :: m[s] == if s < b then 1 else 0
    ensures |m| == b
    decreases b
  {
    if b == 0 {
      assert m == multiset{};
    } else {
      var r := m - multiset{b - 1};
      assert m == r + multiset{b - 1};
      CountSlots(b - 1, r);
    }
  }

  lemma SomeIdleIff(n: Node)
    requires Sched(n)
    ensures n.idle == [] <==> |n.active| + |n.pending| == |n.tasks|
  {
    CountSlots(|n.tasks|, Pool(n));
  }

  // ---------- idle tasks stay idle ----------

  lemma {:induction false} FinishIdles(n: Node, s: nat)
    requires NodeOk(n) && s < |n.tasks|
    ensures n.idle + [s] <= Finish(n, s).idle
    decreases |n.pending|, 0
  {
    var n1 := Release(n, s);
    var k := FirstRunnable(n1, 0);
    if k < |n1.pending| { StartIdles(TakePending(n1, k), n1.pending[k]); }
  }

  lemma {:induction false} StartIdles(n: Node, s: nat)
    requires NodeOk(n) && s < |n.tasks|
    ensures n.idle <= StartTask(n, s).idle
    decreases |n.pending|, 1
  {
    var sent := SendFrom(Activate(n, s), s, 0);
    if !sent.ok { FinishIdles(sent.node, s); }
  }

  /** Trying a task leaves another node than the one it was stored from. */
  lemma HeadUsed(m: Node, n: Node, s: nat)
    requires NodeOk(m) && s < |m.tasks| && n.idle != [] && m.idle == n.idle[1..] && m.active == n.active && m.pending == n.pending && m.log == n.log
    ensures TryTask(m, s) != n
  {
    if !DstActive(m, m.tasks[s].ctx.dst) { StartTouches(m, s); }
    hide StartTask;
  }

  lemma {:induction false} FailureDraws(n: Node, s: nat, i: nat)
    requires s < |n.tasks| && !SendFrom(n, s, i).ok
    ensures |SendFrom(n, s, i).node.log| > |n.log|
    decreases TaskCount(n.tasks[s]) - i
  {
    hide SegPdu;
    if i in n.tasks[s].blockAck {
      FailureDraws(n, s, i + 1);
    } else {
      var r := SendOne(n, s, i);
      if r.ok { SendFromDetached(r.node, s, i + 1, 0); }
    }
  }

  lemma StartTouches(m: Node, s: nat)
    requires NodeOk(m) && s < |m.tasks|
    ensures StartTask(m, s).active != m.active || StartTask(m, s).log != m.log
  {
    var a := Activate(m, s);
    var sent := SendFrom(a, s, 0);
    if sent.ok {
      assert sent.node.active == m.active + [s];
    } else {
      FailureDraws(a, s, 0);
      FinishDetached(sent.node, s, 0);
    }
  }

  // ---------- a stored task ----------

  /** The slot that a stored message gets: its PDU and context, every segment to send, none acknowledged, no retry. Where
      it waits, or after its first burst, that is how it stands, but for the number of its last segment. */
  lemma StoredTaskIs(n: Node, c: MsgCtx, pdu: seq<byte>)
    requires Sched(n) && Storable(n, c, |pdu|)
    ensures var r, s := StoreMessage(n, c, pdu), n.idle[0];
            && s < |r.tasks| && (s in r.active || s in r.pending ==>
                 r.tasks[s] == TxTask(c.(sqn := r.tasks[s].ctx.sqn), pdu, Bits(SegCount(|pdu|, c.ctl)), {}, 0))
            && (s in r.pending <==> DstActive(n, c.dst))
  {
    var s := n.idle[0];
    var t := TxTask(c, pdu, Bits(SegCount(|pdu|, c.ctl)), {}, 0);
    var m := n.(idle := n.idle[1..], tasks := n.tasks[s := t]);
    IdleHeadFree(n);
    IdleHeadLeaves(n, m);
    SameActive(n, m, s, c.dst);
    hide SegCount, Bits, Storable, AlreadySending;
    if !DstActive(m, c.dst) { StartedTaskIs(m, s); }
  }

  lemma SameActive(n: Node, m: Node, s: nat, d: nat)
    requires NodeOk(n) && NodeOk(m) && m.active == n.active && |m.tasks| == |n.tasks|
    requires forall k :: 0 <= k < |n.active| ==> m.tasks[n.active[k]] == n.tasks[n.active[k]]
    ensures DstActive(m, d) <==> DstActive(n, d)
  {
  }

  lemma StartedTaskIs(m: Node, s: nat)
    requires Ready(m, s) && WaitsOr(m, -1)
    ensures var r := StartTask(m, s);
            && s < |r.tasks| && s !in r.pending
            && (s in r.active ==> r.tasks[s] == m.tasks[s].(ctx := m.tasks[s].ctx.(sqn := r.tasks[s].ctx.sqn)))
  {
    StartSched(m, s);
    var a := Activate(m, s);
    var sent := SendFrom(a, s, 0);
    ActivateSched(m, s);
    OnlySendsSched(a, sent.node, s);
    assert sent.node.active[|m.active|] == s;
    ReleasedElsewhere(sent.node, s);
    if !sent.ok {
      FinishIdles(sent.node, s);
      NowIdle(Finish(sent.node, s), s, |sent.node.idle|);
    }
  }

  lemma NowIdle(r: Node, s: nat, k: nat)
    requires Sched(r) && k < |r.idle| && r.idle[k] == s
    ensures s !in r.active && s !in r.pending
  {
    assert s in multiset(r.idle);
    assert Pool(r)[s] == 1;
    NotIn(r.active, s);
    NotIn(r.pending, s);
  }

  // ---------- giving up ----------

  lemma FinishRemoves(n: Node, s: nat)
    requires Sched(n) && s in n.active
    ensures s < |n.tasks| && |Finish(n, s).tasks| == |n.tasks| && s !in Finish(n, s).active
  {
    FinishSched(n, s);
    FinishIdles(n, s);
    NowIdle(Finish(n, s), s, |n.idle|);
  }

  /** Sending again keeps the task if and only if it stays within its window. */
  lemma ResendKeepsIff(n: Node, s: nat)
    requires Sched(n) && s in n.active
    ensures s < |n.tasks| && |Resend(n, s).tasks| == |n.tasks|
    ensures var again := SendFrom(n, s, 0).node.tasks[s].ctx;
            && (s in Resend(n, s).active <==> again.seqAuth <= again.sqn < again.seqAuth + 0x2000)
            && (s in Resend(n, s).active ==> Resend(n, s).tasks[s] == n.tasks[s].(ctx := again))
  {
    var r := SendFrom(n, s, 0).node;
    ResendSched(n, s);
    OnlySendsSched(n, r, s);
    assert r.tasks[s] == n.tasks[s].(ctx := r.tasks[s].ctx) && r.active == n.active;
    hide Partition, WaitsOr, DistinctDst, Finish, SendFrom;
    if !InWindow(r.tasks[s].ctx.sqn, r.tasks[s].ctx.seqAuth) { FinishRemoves(r, s); }
  }

  /** A timeout keeps the task if and only if its retry count, which has 8 bits, stays within the limit, and what it sends
      stays within the sequence window. So with a limit of 255 or more the count alone never ends a task. */
  lemma TimeoutKeepsIff(n: Node, s: nat)
    requires Sched(n) && s in n.active
    ensures s < |n.tasks| && |Timeout(n, s).tasks| == |n.tasks|
    ensures var again := SendFrom(WithTask(n, s, Retried(n.tasks[s])), s, 0).node.tasks[s].ctx;
            && (s in Timeout(n, s).active <==>
                  (n.tasks[s].retryTimes + 1) % 256 <= n.retryLimit && again.seqAuth <= again.sqn < again.seqAuth + 0x2000)
            && (s in Timeout(n, s).active ==>
                  Timeout(n, s).tasks[s] == n.tasks[s].(ctx := again, retryTimes := (n.tasks[s].retryTimes + 1) % 256))
    ensures n.retryLimit >= 255 ==> !((n.tasks[s].retryTimes + 1) % 256 > n.retryLimit)
  {
    var t := Retried(n.tasks[s]);
    var m := WithTask(n, s, t);
    WithTaskSched(n, s, t);
    FinishRemoves(m, s);
    ResendKeepsIff(m, s);
    hide Sched, Finish, Resend, SendFrom;
  }

  /** An acknowledgement takes the task it finds off the active list if it is complete, cancels it, or comes after the last
      retry; any other is recorded and answered with the segments it does not name. */
  lemma AckKeepsIff(n: Node, z: nat, block: set<nat>, s: nat)
    requires Sched(n) && AckedSlot(n, z, 0) == Some(s)
    ensures s in n.active && s < |n.tasks| && |ReceiveAck(n, z, block).tasks| == |n.tasks|
    ensures var t := Retried(n.tasks[s]).(blockAck := block);
            var again := SendFrom(WithTask(n, s, t), s, 0).node.tasks[s].ctx;
            && (s in ReceiveAck(n, z, block).active <==>
                  && block != {} && block != n.tasks[s].segBits && (n.tasks[s].retryTimes + 1) % 256 <= n.retryLimit
                  && again.seqAuth <= again.sqn < again.seqAuth + 0x2000)
            && (s in ReceiveAck(n, z, block).active ==>
                  ReceiveAck(n, z, block).tasks[s]
                  == n.tasks[s].(ctx := again, blockAck := block, retryTimes := (n.tasks[s].retryTimes + 1) % 256))
  {
    var t := Retried(n.tasks[s]).(blockAck := block);
    var m, u := WithTask(n, s, t), WithTask(n, s, Retried(n.tasks[s]));
    WithTaskSched(n, s, t);
    WithTaskSched(n, s, Retried(n.tasks[s]));
    AckIs(n, z, block, s);
    assert s in n.active && s in m.active && s in u.active && NodeOk(m) && NodeOk(u) && s < |n.tasks|;
    assert m.tasks[s] == t && u.retryLimit == n.retryLimit && m.retryLimit == n.retryLimit;
    assert t.retryTimes == (n.tasks[s].retryTimes + 1) % 256 && |m.tasks| == |u.tasks| == |n.tasks|;
    hide *;
    FinishRemoves(n, s);
    FinishRemoves(u, s);
    ResendKeepsIff(m, s);
  }

  lemma AckIs(n: Node, z: nat, block: set<nat>, s: nat)
    requires NodeOk(n) && AckedSlot(n, z, 0) == Some(s)
    ensures s in n.active && s < |n.tasks|
    ensures var t := Retried(n.tasks[s]);
            ReceiveAck(n, z, block)
            == if block == n.tasks[s].segBits || block == {} then Finish(n, s)
               else if t.retryTimes > n.retryLimit then Finish(WithTask(n, s, t), s)
               else Resend(WithTask(n, s, t.(blockAck := block)), s)
  {
    hide Finish, Resend;
  }
}
