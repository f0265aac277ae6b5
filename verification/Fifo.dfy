// Per destination, waiting messages are started strictly in the order they were stored.

module Fifo {
  import opened Bytes
  import opened Mesh
  import opened Segments
  import opened TxNode
  import opened Scheduler

  /** The slots of l that go to destination d, in order. */
  function Filter(tasks: seq<TxTask>, l: seq<nat>, d: nat): seq<nat>
    requires Below(l, |tasks|)
  {
    if l == [] then []
    else
      assert Below(l[1..], |tasks|);
      (if tasks[l[0]].ctx.dst == d then [l[0]] else []) + Filter(tasks, l[1..], d)
  }

  function Queue(n: Node, d: nat): seq<nat>
    requires NodeOk(n)
  {
    Filter(n.tasks, n.pending, d)
  }

  lemma {:induction false} FilterAppend(tasks: seq<TxTask>, a: seq<nat>, b: seq<nat>, d: nat)
    requires Below(a, |tasks|) && Below(b, |tasks|)
    ensures Below(a + b, |tasks|) && Filter(tasks, a + b, d) == Filter(tasks, a, d) + Filter(tasks, b, d)
  {
    if a == [] {
      assert a + b == b;
    } else {
      FilterAppend(tasks, a[1..], b, d);
      var head := if tasks[a[0]].ctx.dst == d then [a[0]] else [];
      assert (a + b)[1..] == a[1..] + b && (a + b)[0] == a[0];
      assert Below(a + b, |tasks|);
      assert Filter(tasks, a, d) == head + Filter(tasks, a[1..], d);
    }
  }

  lemma {:induction false} FilterNone(tasks: seq<TxTask>, l: seq<nat>, d: nat)
    requires Below(l, |tasks|) && forall j :: 0 <= j < |l| ==> tasks[l[j]].ctx.dst != d
    ensures Filter(tasks, l, d) == []
  {
    if l != [] { FilterNone(tasks, l[1..], d); }
  }

  lemma {:induction false} FilterSameDst(t1: seq<TxTask>, t2: seq<TxTask>, l: seq<nat>, d: nat)
    requires |t1| == |t2| && Below(l, |t1|) && forall x :: 0 <= x < |t1| ==> t1[x].ctx.dst == t2[x].ctx.dst
    ensures Filter(t1, l, d) == Filter(t2, l, d)
  {
    if l != [] { FilterSameDst(t1, t2, l[1..], d); }
  }

  lemma FilterCut(tasks: seq<TxTask>, l: seq<nat>, k: nat, e: nat)
    requires Below(l, |tasks|) && k < |l|
    requires forall j :: 0 <= j < k ==> tasks[l[j]].ctx.dst != tasks[l[k]].ctx.dst
    ensures Below(l[..k] + l[k + 1..], |tasks|)
    ensures Filter(tasks, l, e) == (if e == tasks[l[k]].ctx.dst then [l[k]] else []) + Filter(tasks, l[..k] + l[k + 1..], e)
  {
    hide Filter;
    hide Filter;
    var a, b, p := l[..k], l[k + 1..], l[k];
    assert l == a + ([p] + b);
    FilterAppend(tasks, a, [p] + b, e);
    FilterAppend(tasks, [p], b, e);
    FilterAppend(tasks, a, b, e);
    FilterOne(tasks, p, e);
    if e == tasks[p].ctx.dst { FilterNone(tasks, a, e); }
  }

  lemma FilterOne(tasks: seq<TxTask>, p: nat, e: nat)
    requires p < |tasks|
    ensures Filter(tasks, [p], e) == if e == tasks[p].ctx.dst then [p] else []
  {
    assert [p][1..] == [];
  }

  /** Taking the first pending slot of its destination drops the head of that queue and no other. */
  lemma TakeDropsHead(n: Node, k: nat, e: nat)
    requires NodeOk(n) && k < |n.pending|
    requires forall j :: 0 <= j < k ==> Dst(n, n.pending[j]) != Dst(n, n.pending[k])
    ensures Queue(n, e) == (if e == Dst(n, n.pending[k]) then [n.pending[k]] else []) + Queue(TakePending(n, k), e)
  {
    hide Filter;
    FilterCut(n.tasks, n.pending, k, e);
  }

  lemma OnlySendsQueue(n: Node, r: Node, s: nat, e: nat)
    requires NodeOk(n) && NodeOk(r) && OnlySends(n, r, s)
    ensures Queue(r, e) == Queue(n, e)
  {
    FilterSameDst(n.tasks, r.tasks, n.pending, e);
  }

  /** When a task finishes, its destination goes to the oldest waiting message whose first segment is still
      inside the sequence window; older ones are released and every other destination's queue is untouched. */
  lemma {:induction false} FinishServesOldest(n: Node, s: nat) returns (m: nat)
    requires Sched(n) && s in n.active
    ensures NodeOk(Finish(n, s))
    ensures var r, d, q := Finish(n, s), Dst(n, s), Queue(n, Dst(n, s));
            && m <= |q| && Queue(r, d) == q[m..]
            && (forall e :: e != d ==> Queue(r, e) == Queue(n, e))
            && (DstActive(r, d) ==> m > 0 && q[m - 1] in r.active)
            && (!DstActive(r, d) ==> m == |q|)
    decreases |n.pending|, 0
  {
    hide Filter;
    ReleaseSched(n, s);
    var n1, d := Release(n, s), Dst(n, s);
    assert forall e :: Queue(n1, e) == Queue(n, e);
    var k := FirstRunnable(n1, 0);
    if k < |n1.pending| {
      var p := n1.pending[k];
      TakeReady(n1, k, d);
      forall e ensures Queue(n1, e) == (if e == d then [p] else []) + Queue(TakePending(n1, k), e) {
        TakeDropsHead(n1, k, e);
      }
      m := StartServesOldest(TakePending(n1, k), p);
      m := m + 1;
    } else {
      m := 0;
      FilterNone(n1.tasks, n1.pending, d);
    }
  }

  lemma {:induction false} StartServesOldest(n: Node, s: nat) returns (m: nat)
    requires Ready(n, s)
    ensures NodeOk(StartTask(n, s))
    ensures var r, d, q := StartTask(n, s), Dst(n, s), Queue(n, Dst(n, s));
            && m <= |q| && Queue(r, d) == q[m..]
            && (forall e :: e != d ==> Queue(r, e) == Queue(n, e))
            && (DstActive(r, d) ==> ([s] + q)[m] in r.active)
            && (!DstActive(r, d) ==> m == |q|)
    decreases |n.pending|, 1
  {
    hide Filter;
    ActivateSched(n, s);
    var a := Activate(n, s);
    assert forall e :: Queue(a, e) == Queue(n, e);
    var sent := SendFrom(a, s, 0);
    OnlySendsSched(a, sent.node, s);
    forall e ensures Queue(sent.node, e) == Queue(n, e) { OnlySendsQueue(a, sent.node, s, e); }
    assert sent.node.active[|n.active|] == s;
    if sent.ok {
      m := 0;
      assert DstActive(sent.node, Dst(n, s));
    } else {
      m := FinishServesOldest(sent.node, s);
    }
  }

  /** A new message for a busy destination joins the end of its queue. */
  lemma StoreJoinsQueue(n: Node, ctx: MsgCtx, pdu: seq<byte>)
    requires Sched(n) && DstActive(n, ctx.dst) && StoreMessage(n, ctx, pdu) != n
    ensures NodeOk(StoreMessage(n, ctx, pdu)) && n.idle != []
    ensures forall e :: Queue(StoreMessage(n, ctx, pdu), e) == Queue(n, e) + (if e == ctx.dst then [n.idle[0]] else [])
  {
    var s := n.idle[0];
    var t := TxTask(ctx, pdu, Bits(SegCount(|pdu|, ctx.ctl)), {}, 0);
    var m := n.(idle := n.idle[1..], tasks := n.tasks[s := t]);
    IdleHeadLeaves(n, m);
    IdleHeadFree(n);
    assert DstActive(m, ctx.dst);
    var r := m.(pending := m.pending + [s]);
    forall e ensures Filter(r.tasks, r.pending, e) == Queue(n, e) + (if e == ctx.dst then [s] else []) {
      FilterAppend(r.tasks, n.pending, [s], e);
      assert [s][1..] == [];
      FilterPointwise(n.tasks, r.tasks, n.pending, e);
    }
  }

  lemma {:induction false} FilterPointwise(t1: seq<TxTask>, t2: seq<TxTask>, l: seq<nat>, d: nat)
    requires |t1| == |t2| && Below(l, |t1|) && forall j :: 0 <= j < |l| ==> t1[l[j]].ctx.dst == t2[l[j]].ctx.dst
    ensures Filter(t1, l, d) == Filter(t2, l, d)
  {
    if l != [] { FilterPointwise(t1, t2, l[1..], d); }
  }
}
