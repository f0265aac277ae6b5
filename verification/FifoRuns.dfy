// First in, first out, over whole runs: per destination, the messages that have been started or dropped, followed by
// those that still wait, are the messages stored, in order.

module FifoRuns {
  import opened Bytes
  import opened Mesh
  import opened Segments
  import opened IvIndex
  import opened TxNode
  import opened Scheduler
  import opened Fifo

  /** What identifies a stored message: everything but the fields that sending changes. */
  datatype Item = Item(ctx: MsgCtx, pdu: seq<byte>)

  function ItemOf(t: TxTask): Item { Item(t.ctx.(sqn := 0), t.pdu) }

  function Items(tasks: seq<TxTask>, l: seq<nat>): (r: seq<Item>)
    requires Below(l, |tasks|)
    ensures |r| == |l| && forall i :: 0 <= i < |l| ==> r[i] == ItemOf(tasks[l[i]])
  {
    seq(|l|, i requires 0 <= i < |l| => ItemOf(tasks[l[i]]))
  }

  lemma {:induction false} FilterBelow(tasks: seq<TxTask>, l: seq<nat>, d: nat)
    requires Below(l, |tasks|)
    ensures Below(Filter(tasks, l, d), |tasks|)
    ensures forall x :: x in Filter(tasks, l, d) ==> x in l
  {
    if l != [] { FilterBelow(tasks, l[1..], d); }
  }

  /** The messages waiting for destination d, oldest first. */
  function Line(n: Node, d: nat): seq<Item>
    requires NodeOk(n)
  {
    FilterBelow(n.tasks, n.pending, d);
    Items(n.tasks, Queue(n, d))
  }

  predicate SameItems(n: Node, r: Node) {
    |r.tasks| == |n.tasks| && forall x :: 0 <= x < |n.tasks| ==> ItemOf(r.tasks[x]) == ItemOf(n.tasks[x])
  }

  /** From n to r the first m messages of d's line have left it; if d is served at all, then by the last of them. */
  predicate Served(n: Node, r: Node, d: nat, m: nat)
    requires NodeOk(n) && NodeOk(r)
  {
    && m <= |Line(n, d)| && Line(r, d) == Line(n, d)[m..]
    && (m > 0 && DstActive(r, d) ==> exists k :: 0 <= k < |r.active| && ItemOf(r.tasks[r.active[k]]) == Line(n, d)[m - 1])
  }

  ghost predicate InLine(n: Node, r: Node, d: nat)
    requires NodeOk(n) && NodeOk(r)
  {
    exists m :: Served(n, r, d, m)
  }

  ghost predicate AllServed(n: Node, r: Node)
    requires NodeOk(n) && NodeOk(r)
  {
    SameItems(n, r) && forall d :: InLine(n, r, d)
  }

  // ---------- finishing and starting tasks ----------

  lemma {:induction false} FinishItems(n: Node, s: nat)
    requires NodeOk(n) && s < |n.tasks|
    ensures SameItems(n, Finish(n, s))
    decreases |n.pending|, 0
  {
    var n1 := Release(n, s);
    var k := FirstRunnable(n1, 0);
    if k < |n1.pending| { StartItems(TakePending(n1, k), n1.pending[k]); }
  }

  lemma {:induction false} StartItems(n: Node, s: nat)
    requires NodeOk(n) && s < |n.tasks|
    ensures SameItems(n, StartTask(n, s))
    decreases |n.pending|, 1
  {
    var sent := SendFrom(Activate(n, s), s, 0);
    if !sent.ok { FinishItems(sent.node, s); }
  }

  /** What a lemma on slots says about messages. */
  lemma QueueServed(n: Node, r: Node, d: nat, m: nat)
    requires NodeOk(n) && NodeOk(r) && SameItems(n, r) && m <= |Queue(n, d)| && Queue(r, d) == Queue(n, d)[m..]
    requires m > 0 && DstActive(r, d) ==> Queue(n, d)[m - 1] in r.active
    ensures Served(n, r, d, m)
  {
    FilterBelow(n.tasks, n.pending, d);
    FilterBelow(r.tasks, r.pending, d);
    hide Filter, DstActive;
    assert Line(r, d) == Line(n, d)[m..];
    if m > 0 && DstActive(r, d) {
      var k := FirstIndex(r.active, Queue(n, d)[m - 1]);
      assert ItemOf(r.tasks[r.active[k]]) == Line(n, d)[m - 1];
    }
  }

  lemma FinishServes(n: Node, s: nat)
    requires Sched(n) && s in n.active
    ensures NodeOk(Finish(n, s)) && AllServed(n, Finish(n, s))
  {
    var m := FinishServesOldest(n, s);
    assert s < |n.tasks| && NodeOk(n);
    FinishItems(n, s);
    hide Finish, Filter, Sched, SameItems, Served;
    var r := Finish(n, s);
    forall d ensures InLine(n, r, d) { QueueServed(n, r, d, if d == Dst(n, s) then m else 0); }
  }

  lemma SameLine(n: Node, m: Node, d: nat)
    requires NodeOk(n) && NodeOk(m) && SameItems(n, m) && m.pending == n.pending
    ensures Queue(m, d) == Queue(n, d) && Line(m, d) == Line(n, d)
  {
    forall x | 0 <= x < |n.tasks| ensures m.tasks[x].ctx.dst == n.tasks[x].ctx.dst {
      assert ItemOf(m.tasks[x]).ctx.dst == ItemOf(n.tasks[x]).ctx.dst;
    }
    FilterSameDst(n.tasks, m.tasks, n.pending, d);
    FilterBelow(n.tasks, n.pending, d);
  }

  /** Nothing but sending: nobody leaves. */
  lemma NobodyLeaves(n: Node, r: Node)
    requires NodeOk(n) && NodeOk(r) && SameItems(n, r) && r.pending == n.pending
    ensures AllServed(n, r)
  {
    hide DstActive;
    forall d ensures InLine(n, r, d) {
      SameLine(n, r, d);
      QueueServed(n, r, d, 0);
    }
  }

  lemma SameLineThen(n: Node, m: Node, r: Node)
    requires NodeOk(n) && NodeOk(m) && NodeOk(r) && SameItems(n, m) && m.pending == n.pending && AllServed(m, r)
    ensures AllServed(n, r)
  {
    forall d ensures InLine(n, r, d) {
      SameLine(n, m, d);
      assert InLine(m, r, d);
      hide Line, DstActive;
      var k :| Served(m, r, d, k);
      assert Served(n, r, d, k);
    }
  }

  lemma ResendServes(n: Node, s: nat)
    requires Sched(n) && s in n.active
    ensures s < |n.tasks| && NodeOk(Resend(n, s)) && AllServed(n, Resend(n, s))
  {
    var m := SendFrom(n, s, 0).node;
    OnlySendsSched(n, m, s);
    assert SameItems(n, m);
    hide Finish, SendFrom, Filter;
    if InWindow(m.tasks[s].ctx.sqn, m.tasks[s].ctx.seqAuth) {
      NobodyLeaves(n, m);
    } else {
      SentSched(n, m, s);
      FinishServes(m, s);
      SameLineThen(n, m, Finish(m, s));
    }
  }

  lemma SentSched(n: Node, m: Node, s: nat)
    requires Sched(n) && OnlySends(n, m, s)
    ensures Sched(m)
  {
    OnlySendsSched(n, m, s);
  }

  lemma TimeoutServes(n: Node, s: nat)
    requires Sched(n) && s in n.active
    ensures NodeOk(Timeout(n, s)) && AllServed(n, Timeout(n, s))
  {
    var m := WithTask(n, s, Retried(n.tasks[s]));
    WithTaskSched(n, s, Retried(n.tasks[s]));
    FinishServes(m, s);
    ResendServes(m, s);
    hide Finish, Resend;
    SameLineThen(n, m, Timeout(n, s));
  }

  lemma AckServes(n: Node, z: nat, block: set<nat>)
    requires Sched(n)
    ensures NodeOk(ReceiveAck(n, z, block)) && AllServed(n, ReceiveAck(n, z, block))
  {
    hide Finish, Resend, Filter;
    match AckedSlot(n, z, 0)
    case None => NobodyLeaves(n, n);
    case Some(s) =>
      var t := Retried(n.tasks[s]);
      if n.tasks[s].segBits == block || block == {} {
        FinishServes(n, s);
      } else {
        var m := WithTask(n, s, if t.retryTimes > n.retryLimit then t else t.(blockAck := block));
        WithTaskSched(n, s, m.tasks[s]);
        FinishServes(m, s);
        ResendServes(m, s);
        SameLineThen(n, m, ReceiveAck(n, z, block));
      }
  }

  // ---------- storing ----------

  /** The context is stored for segmentation rather than sent whole or refused. */
  predicate Stores(n: Node, ctx: MsgCtx, pdu: seq<byte>)
    requires NodeOk(n)
  {
    var c := WithNumber(n, ctx);
    pdu != [] && IsValidAddress(c.dst) && NeedsSegments(c, |pdu|) && Storable(n, c, |pdu|)
  }

  /** What a step puts at the end of d's line. */
  function Joining(n: Node, e: Step, d: nat): seq<Item>
    requires NodeOk(n)
  {
    if e.Send? && e.ctx.dst == d && Stores(n, e.ctx, e.pdu) then [Item(WithNumber(n, e.ctx).(seg := true, sqn := 0), e.pdu)] else []
  }

  /** One step: from d's line with what joined it, the first m messages have left. */
  predicate Advanced(q: seq<Item>, r: Node, d: nat, m: nat)
    requires NodeOk(r)
  {
    && m <= |q| && Line(r, d) == q[m..]
    && (m > 0 && DstActive(r, d) ==> exists k :: 0 <= k < |r.active| && ItemOf(r.tasks[r.active[k]]) == q[m - 1])
  }

  ghost predicate Advances(q: seq<Item>, r: Node, d: nat)
    requires NodeOk(r)
  {
    exists m :: Advanced(q, r, d, m)
  }

  lemma NewInLine(n: Node, s: nat, t: TxTask, d: nat)
    requires Sched(n) && n.idle != [] && s == n.idle[0] && s < |n.tasks|
    ensures var m := n.(idle := n.idle[1..], tasks := n.tasks[s := t]); NodeOk(m) && Line(m, d) == Line(n, d)
  {
    var m := n.(idle := n.idle[1..], tasks := n.tasks[s := t]);
    IdleHeadLeaves(n, m);
    IdleHeadFree(n);
    FilterPointwise(n.tasks, m.tasks, n.pending, d);
    FilterBelow(n.tasks, n.pending, d);
    hide Filter, Sched;
    forall i | 0 <= i < |Queue(n, d)| ensures m.tasks[Queue(n, d)[i]] == n.tasks[Queue(n, d)[i]] {
      assert Queue(n, d)[i] in n.pending;
      var k := FirstIndex(n.pending, Queue(n, d)[i]);
    }
  }

  lemma PendAdvances(m: Node, s: nat, d: nat)
    requires NodeOk(m) && s < |m.tasks| && DstActive(m, Dst(m, s))
    ensures NodeOk(m.(pending := m.pending + [s]))
    ensures Line(m.(pending := m.pending + [s]), d) == Line(m, d) + (if d == Dst(m, s) then [ItemOf(m.tasks[s])] else [])
  {
    var r := m.(pending := m.pending + [s]);
    FilterAppend(m.tasks, m.pending, [s], d);
    FilterOne(m.tasks, s, d);
    FilterBelow(m.tasks, m.pending, d);
  }

  /** A task started at once is its destination's only message. */
  lemma StartAdvances(m: Node, s: nat, d: nat)
    requires Ready(m, s) && WaitsOr(m, -1)
    ensures NodeOk(StartTask(m, s))
    ensures Advances(Line(m, d) + (if d == Dst(m, s) then [ItemOf(m.tasks[s])] else []), StartTask(m, s), d)
  {
    StartItems(m, s);
    NoneWaits(m, s);
    var j := StartServesOldest(m, s);
    assert s < |m.tasks|;
    hide StartTask, Filter, DstActive, Ready, WaitsOr, SameItems, Advances, Line;
    if d == Dst(m, s) { OwnLine(m, StartTask(m, s), s); } else { OtherLine(m, StartTask(m, s), d); }
  }

  lemma OwnLine(m: Node, r: Node, s: nat)
    requires NodeOk(m) && NodeOk(r) && s < |m.tasks| && SameItems(m, r)
    requires Queue(m, Dst(m, s)) == Queue(r, Dst(m, s)) == [] && (DstActive(r, Dst(m, s)) ==> s in r.active)
    ensures Advances(Line(m, Dst(m, s)) + [ItemOf(m.tasks[s])], r, Dst(m, s))
  {
    hide Filter, DstActive;
    var q := Line(m, Dst(m, s)) + [ItemOf(m.tasks[s])];
    assert q == [ItemOf(m.tasks[s])] && Line(r, Dst(m, s)) == [];
    if DstActive(r, Dst(m, s)) {
      var k := FirstIndex(r.active, s);
      assert ItemOf(r.tasks[r.active[k]]) == ItemOf(m.tasks[s]);
    }
    assert Advanced(q, r, Dst(m, s), 1);
  }

  lemma OtherLine(m: Node, r: Node, d: nat)
    requires NodeOk(m) && NodeOk(r) && SameItems(m, r) && Queue(m, d) == Queue(r, d)
    ensures Advances(Line(m, d) + [], r, d)
  {
    FilterBelow(m.tasks, m.pending, d);
    FilterBelow(r.tasks, r.pending, d);
    hide Filter, DstActive;
    assert Line(r, d) == Line(m, d);
    StaysInLine(Line(m, d) + [], r, d);
  }

  lemma NoneWaits(m: Node, s: nat)
    requires Ready(m, s) && WaitsOr(m, -1)
    ensures Queue(m, Dst(m, s)) == []
  {
    FilterNone(m.tasks, m.pending, Dst(m, s));
  }

  lemma StoreAdvances(n: Node, c: MsgCtx, pdu: seq<byte>, d: nat)
    requires Sched(n)
    ensures NodeOk(StoreMessage(n, c, pdu))
    ensures Advances(Line(n, d) + (if d == c.dst && Storable(n, c, |pdu|) then [Item(c.(sqn := 0), pdu)] else []), StoreMessage(n, c, pdu), d)
  {
    if Storable(n, c, |pdu|) {
      var s := n.idle[0];
      var t := TxTask(c, pdu, Bits(SegCount(|pdu|, c.ctl)), {}, 0);
      var m := n.(idle := n.idle[1..], tasks := n.tasks[s := t]);
      NewInLine(n, s, t, d);
      IdleHeadLeaves(n, m);
      hide Line, StartTask, SegCount, Sched;
      if DstActive(m, c.dst) {
        PendAdvances(m, s, d);
        StaysInLine(Line(m, d) + (if d == c.dst then [ItemOf(t)] else []), m.(pending := m.pending + [s]), d);
      } else {
        StartAdvances(m, s, d);
      }
    } else {
      StaysInLine(Line(n, d), n, d);
      assert Line(n, d) + [] == Line(n, d);
    }
  }

  lemma StaysInLine(q: seq<Item>, r: Node, d: nat)
    requires NodeOk(r) && Line(r, d) == q
    ensures Advances(q, r, d)
  {
    assert Advanced(q, r, d, 0);
  }

  lemma ServedAdvances(n: Node, r: Node, d: nat)
    requires NodeOk(n) && NodeOk(r) && AllServed(n, r)
    ensures Advances(Line(n, d) + [], r, d)
  {
    hide Line, DstActive;
    assert InLine(n, r, d) && Line(n, d) + [] == Line(n, d);
    var m :| Served(n, r, d, m);
    assert Advanced(Line(n, d), r, d, m);
  }

  lemma LoggedLine(n: Node, r: Node, d: nat)
    requires Sched(n) && r == n.(counters := r.counters, log := r.log)
    ensures Sched(r) && Line(r, d) == Line(n, d)
  {
    SameListsSched(n, r);
  }

  lemma SendAdvances(n: Node, ctx: MsgCtx, pdu: seq<byte>, d: nat)
    requires Sched(n)
    ensures NodeOk(SendMessage(n, ctx, pdu))
    ensures Advances(Line(n, d) + Joining(n, Send(ctx, pdu), d), SendMessage(n, ctx, pdu), d)
  {
    assert NodeOk(n);
    hide Line, StoreMessage, Sched, SegCount, Advances, Storable;
    var w := WithNumber(n, ctx).(seg := true);
    if pdu != [] && IsValidAddress(ctx.dst) && NeedsSegments(WithNumber(n, ctx), |pdu|) && !(w.ctl && !Storable(n, w, |pdu|)) {
      SplitAdvances(n, w, pdu, d);
      JoinsIfStored(n, ctx, pdu, d);
      hide Joining, PutToUse, WithNumber;
    } else {
      LoggedLine(n, SendMessage(n, ctx, pdu), d);
      JoinsIfStored(n, ctx, pdu, d);
      assert Joining(n, Send(ctx, pdu), d) == [];
      StaysInLine(Line(n, d) + [], SendMessage(n, ctx, pdu), d);
    }
  }

  lemma JoinsIfStored(n: Node, ctx: MsgCtx, pdu: seq<byte>, d: nat)
    requires NodeOk(n)
    ensures var w := WithNumber(n, ctx).(seg := true);
            Joining(n, Send(ctx, pdu), d)
            == if pdu != [] && IsValidAddress(ctx.dst) && NeedsSegments(WithNumber(n, ctx), |pdu|) && d == w.dst && Storable(n, w, |pdu|)
               then [Item(w.(sqn := 0), pdu)] else []
  {
  }

  lemma SplitAdvances(n: Node, w: MsgCtx, pdu: seq<byte>, d: nat)
    requires Sched(n)
    ensures NodeOk(StoreMessage(PutToUse(n, w, SeqAuthUse(w, pdu)), w, pdu))
    ensures Advances(Line(n, d) + (if d == w.dst && Storable(n, w, |pdu|) then [Item(w.(sqn := 0), pdu)] else []),
                     StoreMessage(PutToUse(n, w, SeqAuthUse(w, pdu)), w, pdu), d)
  {
    var m := PutToUse(n, w, SeqAuthUse(w, pdu));
    LoggedLine(n, m, d);
    assert Storable(m, w, |pdu|) == Storable(n, w, |pdu|);
    hide Line, StoreMessage, Sched, Advances, Storable, PutToUse;
    StoreAdvances(m, w, pdu, d);
  }

  /** Every step, at every destination: the messages that leave the line are its first ones, in order, and if the
      destination is being served after some have left, it is by the last of them. */
  lemma StepKeepsOrder(n: Node, e: Step, d: nat)
    requires Sched(n) && IvValid(n.iv) && Enabled(n, e)
    ensures Advances(Line(n, d) + Joining(n, e, d), Do(n, e), d)
  {
    assert NodeOk(n);
    hide Line, SendMessage, Timeout, ReceiveAck, Sched, Advances, AllServed;
    match e
    case Send(ctx, pdu) => SendAdvances(n, ctx, pdu, d);
    case TimerFires(s) =>
      TimeoutServes(n, s);
      ServedAdvances(n, Timeout(n, s), d);
    case AckArrives(z, block) =>
      AckServes(n, z, block);
      ServedAdvances(n, ReceiveAck(n, z, block), d);
    case _ =>
      OnlyCounters(n, e);
      ServedAdvances(n, Do(n, e), d);
  }

  lemma OnlyCounters(n: Node, e: Step)
    requires NodeOk(n) && IvValid(n.iv) && Enabled(n, e) && !e.Send? && !e.TimerFires? && !e.AckArrives?
    ensures AllServed(n, Do(n, e))
  {
    assert Do(n, e).tasks == n.tasks && Do(n, e).pending == n.pending;
    hide Do;
    NobodyLeaves(n, Do(n, e));
  }

  // ---------- runs ----------

  function Joined(n: Node, es: seq<Step>, d: nat): seq<Item>
    requires NodeOk(n) && IvValid(n.iv) && Legal(n, es)
    decreases |es|
  {
    if es == [] then [] else Joining(n, es[0], d) + Joined(Do(n, es[0]), es[1..], d)
  }

  /** What one step takes from the line: as many from its front as it has become shorter. */
  function Leaving(n: Node, e: Step, d: nat): seq<Item>
    requires NodeOk(n) && IvValid(n.iv) && Enabled(n, e)
  {
    var q, k := Line(n, d) + Joining(n, e, d), |Line(Do(n, e), d)|;
    if k <= |q| then q[..|q| - k] else []
  }

  /** Started or dropped, in the order in which that happened. */
  function Gone(n: Node, es: seq<Step>, d: nat): seq<Item>
    requires NodeOk(n) && IvValid(n.iv) && Legal(n, es)
    decreases |es|
  {
    if es == [] then [] else Leaving(n, es[0], d) + Gone(Do(n, es[0]), es[1..], d)
  }

  lemma StepSplits(n: Node, e: Step, d: nat)
    requires Sched(n) && IvValid(n.iv) && Enabled(n, e)
    ensures Leaving(n, e, d) + Line(Do(n, e), d) == Line(n, d) + Joining(n, e, d)
  {
    hide Line, Do, Joining, DstActive, Enabled;
    StepKeepsOrder(n, e, d);
    var q := Line(n, d) + Joining(n, e, d);
    var m: nat :| Advanced(q, Do(n, e), d, m);
    assert q[..m] + q[m..] == q;
  }

  /** Over every run, at every destination: what has been started or dropped, followed by what still waits, is what
      waited before followed by what was stored, in order. */
  lemma {:induction false} RunKeepsOrder(n: Node, es: seq<Step>, d: nat)
    requires Sched(n) && IvValid(n.iv) && Legal(n, es)
    ensures Gone(n, es, d) + Line(Exec(n, es), d) == Line(n, d) + Joined(n, es, d)
    decreases |es|
  {
    assert NodeOk(n);
    hide Line, Do, Joining, Leaving, Enabled, Sched;
    if es != [] {
      StepSplits(n, es[0], d);
      DoSched(n, es[0]);
      var m := Do(n, es[0]);
      RunKeepsOrder(m, es[1..], d);
      Regroup(Leaving(n, es[0], d), Gone(m, es[1..], d), Line(Exec(n, es), d), Line(m, d), Line(n, d), Joining(n, es[0], d),
              Joined(m, es[1..], d));
    }
  }

  lemma Regroup(l: seq<Item>, g: seq<Item>, w: seq<Item>, m: seq<Item>, n: seq<Item>, j: seq<Item>, k: seq<Item>)
    requires g + w == m + k && l + m == n + j
    ensures (l + g) + w == n + (j + k)
  {
    assert (l + g) + w == l + (g + w) && l + (m + k) == (l + m) + k && (n + j) + k == n + (j + k);
  }
}
