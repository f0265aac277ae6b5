// What every call keeps of the transmit task pool: each task is in exactly one list, no two active tasks
// share a destination, and a task waits only behind an active task to its own destination.

module Scheduler {
  import opened Bytes
  import opened Mesh
  import opened Segments
  import opened IvIndex
  import opened TxNode

  function Pool(n: Node): multiset<nat> { multiset(n.idle) + multiset(n.active) + multiset(n.pending) }

  ghost predicate Partition(n: Node) { forall s: nat :: Pool(n)[s] == if s < |n.tasks| then 1 else 0 }

  function Dst(n: Node, s: nat): nat
    requires s < |n.tasks|
  {
    n.tasks[s].ctx.dst
  }

  predicate DistinctDst(n: Node)
    requires NodeOk(n)
  {
    forall i, j :: 0 <= i < |n.active| && 0 <= j < |n.active| && Dst(n, n.active[i]) == Dst(n, n.active[j]) ==> i == j
  }

  /** Every pending task has an active task to its destination, or goes to the given destination. */
  predicate WaitsOr(n: Node, dst: int)
    requires NodeOk(n)
  {
    forall j :: 0 <= j < |n.pending| ==> DstActive(n, Dst(n, n.pending[j])) || Dst(n, n.pending[j]) == dst
  }

  ghost predicate Sched(n: Node) { NodeOk(n) && Partition(n) && DistinctDst(n) && WaitsOr(n, -1) }

  // ---------- lists ----------

  lemma {:induction false} WithoutIndex(l: seq<nat>, k: nat)
    requires k < |l| && forall i :: 0 <= i < k ==> l[i] != l[k]
    ensures Without(l, l[k]) == l[..k] + l[k + 1..]
  {
    if k > 0 {
      WithoutIndex(l[1..], k - 1);
      assert l[1..][k - 1] == l[k];
      assert l == [l[0]] + l[1..];
    }
  }

  lemma FirstIndex(l: seq<nat>, s: nat) returns (k: nat)
    requires s in l
    ensures k < |l| && l[k] == s && forall i :: 0 <= i < k ==> l[i] != s
  {
    k := 0;
    while l[k] != s
      invariant k < |l| && forall i :: 0 <= i < k ==> l[i] != s
      decreases |l| - k
    {
      k := k + 1;
    }
  }

  lemma CutMultiset(l: seq<nat>, k: nat)
    requires k < |l|
    ensures multiset(l) == multiset(l[..k] + l[k + 1..]) + multiset{l[k]}
  {
    assert l == l[..k] + [l[k]] + l[k + 1..];
  }

  // ---------- one call at a time ----------

  lemma OnlySendsSched(n: Node, r: Node, s: nat)
    requires NodeOk(n) && OnlySends(n, r, s)
    ensures NodeOk(r) && Pool(r) == Pool(n) && |r.tasks| == |n.tasks|
    ensures DistinctDst(n) ==> DistinctDst(r)
    ensures forall d :: WaitsOr(n, d) ==> WaitsOr(r, d)
    ensures forall x: nat :: x < |n.tasks| ==> Dst(r, x) == Dst(n, x)
  {
    assert forall x: nat :: x < |n.tasks| ==> Dst(r, x) == Dst(n, x);
    assert forall d :: DstActive(n, d) ==> DstActive(r, d);
  }

  lemma ReleaseCut(n: Node, s: nat) returns (k: nat)
    requires NodeOk(n) && s in n.active
    ensures k < |n.active| && n.active[k] == s
    ensures Release(n, s).active == n.active[..k] + n.active[k + 1..]
    ensures Pool(Release(n, s)) == Pool(n)
  {
    k := FirstIndex(n.active, s);
    WithoutIndex(n.active, k);
    CutMultiset(n.active, k);
  }

  lemma ReleasedElsewhere(n: Node, s: nat)
    requires Sched(n) && s in n.active
    ensures forall k :: 0 <= k < |Release(n, s).active| ==> Release(n, s).active[k] != s
    ensures forall k :: 0 <= k < |n.pending| ==> n.pending[k] != s
  {
    var k := ReleaseCut(n, s);
    CutMultiset(n.active, k);
    assert Pool(n)[s] == 1;
    NotIn(Release(n, s).active, s);
    NotIn(n.pending, s);
  }

  lemma CutActive(n: Node, r: Node, k: nat)
    requires NodeOk(n) && DistinctDst(n) && k < |n.active| && r.tasks == n.tasks
    requires r.active == n.active[..k] + n.active[k + 1..] && NodeOk(r)
    ensures DistinctDst(r) && !DstActive(r, Dst(n, n.active[k]))
    ensures forall d :: d != Dst(n, n.active[k]) && DstActive(n, d) ==> DstActive(r, d)
  {
    assert forall j :: 0 <= j < |r.active| ==> r.active[j] == n.active[if j < k then j else j + 1];
    forall d | d != Dst(n, n.active[k]) && DstActive(n, d) ensures DstActive(r, d) {
      var i :| 0 <= i < |n.active| && n.tasks[n.active[i]].ctx.dst == d;
      assert n.active[i] == r.active[if i < k then i else i - 1];
    }
  }

  lemma ReleaseSched(n: Node, s: nat)
    requires Sched(n) && s in n.active
    ensures var r := Release(n, s);
            && NodeOk(r) && Partition(r) && DistinctDst(r) && WaitsOr(r, Dst(n, s)) && !DstActive(r, Dst(n, s))
  {
    var k := ReleaseCut(n, s);
    CutActive(n, Release(n, s), k);
  }

  /** A task outside every list that may be started now. */
  ghost predicate Ready(n: Node, s: nat) {
    && NodeOk(n) && s < |n.tasks| && DistinctDst(n) && !DstActive(n, Dst(n, s)) && WaitsOr(n, Dst(n, s))
    && forall x: nat :: (Pool(n) + multiset{s})[x] == if x < |n.tasks| then 1 else 0
  }

  lemma TakeReady(n: Node, k: nat, d: nat)
    requires NodeOk(n) && Partition(n) && DistinctDst(n) && WaitsOr(n, d) && k < |n.pending|
    requires !DstActive(n, Dst(n, n.pending[k]))
    ensures Ready(TakePending(n, k), n.pending[k])
  {
    var r, s := TakePending(n, k), n.pending[k];
    assert Dst(n, s) == d;
    TakePool(n, k);
    TakeWaits(n, r, k, d);
  }

  lemma TakePool(n: Node, k: nat)
    requires k < |n.pending|
    ensures Pool(TakePending(n, k)) + multiset{n.pending[k]} == Pool(n)
  {
    CutMultiset(n.pending, k);
  }

  lemma TakeWaits(n: Node, r: Node, k: nat, d: int)
    requires NodeOk(n) && WaitsOr(n, d) && k < |n.pending| && r == TakePending(n, k)
    ensures NodeOk(r) && WaitsOr(r, d)
    ensures forall e :: DstActive(n, e) <==> DstActive(r, e)
  {
    assert forall e :: DstActive(n, e) <==> DstActive(r, e);
    assert forall j :: 0 <= j < |r.pending| ==> r.pending[j] == n.pending[if j < k then j else j + 1];
  }

  lemma ActivateSched(n: Node, s: nat)
    requires Ready(n, s)
    ensures Sched(Activate(n, s))
  {
    var r := Activate(n, s);
    assert Pool(r) == Pool(n) + multiset{s};
    ActivateDst(n, s);
  }

  lemma ActivateDst(n: Node, s: nat)
    requires NodeOk(n) && s < |n.tasks| && DistinctDst(n) && !DstActive(n, Dst(n, s)) && WaitsOr(n, Dst(n, s))
    ensures var r := Activate(n, s); DistinctDst(r) && WaitsOr(r, -1)
  {
    var r := Activate(n, s);
    forall d | d == Dst(n, s) || DstActive(n, d) ensures DstActive(r, d) {
      if d == Dst(n, s) {
        assert r.active[|n.active|] == s;
      } else {
        var i :| 0 <= i < |n.active| && n.tasks[n.active[i]].ctx.dst == d;
        assert r.active[i] == n.active[i];
      }
    }
    assert forall j :: 0 <= j < |r.pending| ==> DstActive(r, Dst(r, r.pending[j]));
    ActivateDistinct(n, s);
  }

  lemma ActivateDistinct(n: Node, s: nat)
    requires NodeOk(n) && s < |n.tasks| && DistinctDst(n) && !DstActive(n, Dst(n, s))
    ensures DistinctDst(Activate(n, s))
  {
    var r := Activate(n, s);
    forall i, j | 0 <= i < j < |r.active| ensures Dst(r, r.active[i]) != Dst(r, r.active[j]) {
      assert r.active[i] == n.active[i];
      if j < |n.active| { assert r.active[j] == n.active[j]; }
    }
  }

  lemma {:induction false} FinishSched(n: Node, s: nat)
    requires Sched(n) && s in n.active
    ensures Sched(Finish(n, s)) && |Finish(n, s).tasks| == |n.tasks|
    decreases |n.pending|, 0
  {
    ReleaseSched(n, s);
    var n1 := Release(n, s);
    var k := FirstRunnable(n1, 0);
    if k < |n1.pending| {
      TakeReady(n1, k, Dst(n, s));
      StartSched(TakePending(n1, k), n1.pending[k]);
    } else {
      assert WaitsOr(n1, -1);
    }
  }

  lemma {:induction false} StartSched(n: Node, s: nat)
    requires Ready(n, s)
    ensures Sched(StartTask(n, s)) && |StartTask(n, s).tasks| == |n.tasks|
    decreases |n.pending|, 1
  {
    ActivateSched(n, s);
    var sent := SendFrom(Activate(n, s), s, 0);
    OnlySendsSched(Activate(n, s), sent.node, s);
    if !sent.ok {
      assert sent.node.active[|n.active|] == s;
      FinishSched(sent.node, s);
    }
  }

  lemma WithTaskSched(n: Node, s: nat, t: TxTask)
    requires Sched(n) && s < |n.tasks| && t.ctx == n.tasks[s].ctx
    ensures Sched(WithTask(n, s, t))
  {
    var r := WithTask(n, s, t);
    assert Pool(r) == Pool(n);
    assert forall x: nat :: x < |n.tasks| ==> Dst(r, x) == Dst(n, x);
    assert forall d :: DstActive(n, d) ==> DstActive(r, d);
  }

  lemma ResendSched(n: Node, s: nat)
    requires Sched(n) && s in n.active
    ensures Sched(Resend(n, s)) && |Resend(n, s).tasks| == |n.tasks|
  {
    var r := SendFrom(n, s, 0).node;
    OnlySendsSched(n, r, s);
    if !InWindow(r.tasks[s].ctx.sqn, r.tasks[s].ctx.seqAuth) { FinishSched(r, s); }
  }

  lemma TimeoutSched(n: Node, s: nat)
    requires Sched(n) && s in n.active
    ensures Sched(Timeout(n, s)) && |Timeout(n, s).tasks| == |n.tasks|
  {
    var t := Retried(n.tasks[s]);
    WithTaskSched(n, s, t);
    if t.retryTimes > n.retryLimit { FinishSched(WithTask(n, s, t), s); } else { ResendSched(WithTask(n, s, t), s); }
  }

  lemma ReceiveAckSched(n: Node, seqZero: nat, block: set<nat>)
    requires Sched(n)
    ensures Sched(ReceiveAck(n, seqZero, block)) && |ReceiveAck(n, seqZero, block).tasks| == |n.tasks|
  {
    match AckedSlot(n, seqZero, 0)
    case None =>
    case Some(s) =>
      if n.tasks[s].segBits == block || block == {} {
        FinishSched(n, s);
      } else {
        var t := Retried(n.tasks[s]);
        if t.retryTimes > n.retryLimit {
          WithTaskSched(n, s, t);
          FinishSched(WithTask(n, s, t), s);
        } else {
          WithTaskSched(n, s, t.(blockAck := block));
          ResendSched(WithTask(n, s, t.(blockAck := block)), s);
        }
      }
  }

  lemma StoreMessageSched(n: Node, ctx: MsgCtx, pdu: seq<byte>)
    requires Sched(n)
    ensures Sched(StoreMessage(n, ctx, pdu)) && |StoreMessage(n, ctx, pdu).tasks| == |n.tasks|
  {
    if StoreMessage(n, ctx, pdu) != n {
      var s := n.idle[0];
      var t := TxTask(ctx, pdu, Bits(SegCount(|pdu|, ctx.ctl)), {}, 0);
      var m := n.(idle := n.idle[1..], tasks := n.tasks[s := t]);
      IdleHeadLeaves(n, m);
      if DstActive(m, ctx.dst) {
        PendSched(m, s);
      } else {
        StartSched(m, s);
      }
    }
  }

  lemma IdleHeadLeaves(n: Node, m: Node)
    requires Sched(n) && n.idle != [] && |m.tasks| == |n.tasks|
    requires m == n.(idle := n.idle[1..], tasks := m.tasks)
    requires m.tasks == n.tasks[n.idle[0] := m.tasks[n.idle[0]]]
    ensures NodeOk(m) && DistinctDst(m) && WaitsOr(m, -1) && Pool(m) + multiset{n.idle[0]} == Pool(n)
  {
    IdleHeadFree(n);
    assert n.idle == [n.idle[0]] + n.idle[1..];
    assert forall d :: DstActive(n, d) ==> DstActive(m, d);
  }

  lemma IdleHeadFree(n: Node)
    requires Sched(n) && n.idle != []
    ensures forall k :: 0 <= k < |n.active| ==> n.active[k] != n.idle[0]
    ensures forall k :: 0 <= k < |n.pending| ==> n.pending[k] != n.idle[0]
  {
    var s := n.idle[0];
    assert s in multiset(n.idle);
    assert Pool(n)[s] == 1;
    NotIn(n.active, s);
    NotIn(n.pending, s);
  }

  lemma NotIn(l: seq<nat>, s: nat)
    requires multiset(l)[s] == 0
    ensures forall k :: 0 <= k < |l| ==> l[k] != s
  {
    forall k | 0 <= k < |l| ensures l[k] != s {
      assert l[k] in multiset(l);
    }
  }

  lemma PendSched(m: Node, s: nat)
    requires NodeOk(m) && DistinctDst(m) && WaitsOr(m, -1) && s < |m.tasks| && DstActive(m, Dst(m, s))
    requires forall x: nat :: (Pool(m) + multiset{s})[x] == if x < |m.tasks| then 1 else 0
    ensures Sched(m.(pending := m.pending + [s]))
  {
    var r := m.(pending := m.pending + [s]);
    assert Pool(r) == Pool(m) + multiset{s};
    assert forall d :: DstActive(m, d) ==> DstActive(r, d);
    assert forall j :: 0 <= j < |m.pending| ==> r.pending[j] == m.pending[j];
  }

  lemma SameListsSched(n: Node, r: Node)
    requires Sched(n) && r == n.(counters := r.counters, log := r.log, iv := r.iv)
    ensures Sched(r)
  {
    assert Pool(r) == Pool(n);
    assert forall d :: DstActive(n, d) ==> DstActive(r, d);
  }

  lemma SendMessageSched(n: Node, ctx: MsgCtx, pdu: seq<byte>)
    requires Sched(n)
    ensures Sched(SendMessage(n, ctx, pdu)) && |SendMessage(n, ctx, pdu).tasks| == |n.tasks|
  {
    hide StoreMessage, Storable;
    var c := WithNumber(n, ctx);
    if pdu != [] && IsValidAddress(ctx.dst) && NeedsSegments(c, |pdu|) {
      var w := c.(seg := true);
      var m := PutToUse(n, w, SeqAuthUse(w, pdu));
      SameListsSched(n, m);
      StoreMessageSched(m, w, pdu);
    } else {
      SameListsSched(n, SendMessage(n, ctx, pdu));
    }
  }

  lemma DoSched(n: Node, e: Step)
    requires Sched(n) && IvValid(n.iv) && Enabled(n, e)
    ensures Sched(Do(n, e)) && |Do(n, e).tasks| == |n.tasks|
  {
    match e
    case TakeNumber(src) => SameListsSched(n, Do(n, e));
    case Send(ctx, pdu) => SendMessageSched(n, ctx, pdu);
    case AckOut(src, dst, ttl, seqZero, block) => SameListsSched(n, Do(n, e));
    case TimerFires(s) => TimeoutSched(n, s);
    case AckArrives(seqZero, block) => ReceiveAckSched(n, seqZero, block);
    case ClockTick => SameListsSched(n, Do(n, e));
    case Beacon(index, state) => SameListsSched(n, Do(n, e));
  }

  // ---------- over whole runs ----------

  lemma InitialSched(n: Node)
    requires Initial(n)
    ensures Sched(n)
  {
    forall s: nat ensures Pool(n)[s] == if s < |n.tasks| then 1 else 0 { RangeCount(|n.tasks|, s); }
  }

  lemma {:induction false} RangeCount(k: nat, s: nat)
    ensures multiset(Range(k))[s] == if s < k then 1 else 0
  {
    if k > 0 {
      RangeCount(k - 1, s);
      AppendCount(Range(k - 1), k - 1, s);
    }
  }

  lemma AppendCount(l: seq<nat>, x: nat, s: nat)
    ensures multiset(l + [x])[s] == multiset(l)[s] + (if s == x then 1 else 0)
  {
    assert multiset(l + [x]) == multiset(l) + multiset([x]);
  }

  /** From initialisation on, after any run: every task is in exactly one list, active destinations are
      distinct, and a pending task always has an active task to its destination. */
  lemma {:induction false} ScheduleInvariant(n: Node, es: seq<Step>)
    requires Sched(n) && IvValid(n.iv) && Legal(n, es)
    ensures Sched(Exec(n, es)) && |Exec(n, es).tasks| == |n.tasks|
    decreases |es|
  {
    if es != [] {
      DoSched(n, es[0]);
      ScheduleInvariant(Do(n, es[0]), es[1..]);
    }
  }

  /** The busy test reads the active list only, yet it is false exactly when no message is stored anywhere. */
  lemma NotBusyMeansNothingStored(n: Node)
    requires Sched(n)
    ensures !Busy(n) <==> multiset(n.idle) == Pool(n)
    ensures !Busy(n) ==> n.pending == []
  {
    if n.pending != [] {
      assert DstActive(n, Dst(n, n.pending[0]));
    }
  }
}
