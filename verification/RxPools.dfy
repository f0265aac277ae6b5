// What every received segment keeps of a receiver's reassembly pool, and what it may acknowledge.

module RxPools {
  import opened Bytes
  import opened Mesh
  import opened Segments
  import opened TxNode
  import opened RxNode
  import opened Scheduler

  datatype Key = Key(src: nat, dst: nat, iv: nat, seqAuth: nat)

  function KeyOf(c: MsgCtx): Key { Key(c.src, c.dst, c.iv, c.seqAuth) }

  /** The sender under consideration: its element addresses and what it has drawn so far. */
  datatype Sender = Sender(addr: nat, elements: nat, log: seq<Draw>)

  predicate Own(w: Sender, src: nat) { w.addr <= src < w.addr + w.elements }

  /** c is the receiver's view of the message numbered by d. */
  ghost predicate Belongs(c: MsgCtx, d: Draw) {
    && d.use.Message? && KeyOf(d.use.ctx) == KeyOf(c) && d.use.ctx.ctl == c.ctl
    && (if c.ctl then d.use.ctx.opcode == c.opcode
        else d.use.ctx.akf == c.akf && c.aid == (if c.akf then d.use.ctx.aid else 0) && d.use.ctx.szmic == c.szmic)
  }

  ghost predicate HasDelivered(ds: set<Delivery>, k: Key, pdu: seq<byte>) {
    exists d :: d in ds && KeyOf(d.ctx) == k && d.data == pdu
  }

  ghost predicate TaskOf(t: RxTask, d: Draw, ds: set<Delivery>) {
    && Belongs(t.ctx, d) && Holds(t, t.ctx.ctl, d.use.pdu)
    && (t.notReceived == {} ==> HasDelivered(ds, KeyOf(t.ctx), d.use.pdu))
  }

  ghost predicate TaskOk(w: Sender, ds: set<Delivery>, t: RxTask) {
    Own(w, t.ctx.src) ==> exists j :: 0 <= j < |w.log| && TaskOf(t, w.log[j], ds)
  }

  function RxSlots(p: RxPool): multiset<nat> { multiset(p.idle) + multiset(p.active) }

  ghost predicate RxPartition(p: RxPool) { forall s: nat :: RxSlots(p)[s] == if s < |p.tasks| then 1 else 0 }

  /** At most one active task per source. */
  predicate OneTaskPerSource(p: RxPool)
    requires PoolOk(p)
  {
    forall i, j | 0 <= i < |p.active| && 0 <= j < |p.active|
                  && p.tasks[p.active[i]].ctx.src == p.tasks[p.active[j]].ctx.src :: i == j
  }

  ghost predicate Shaped(p: RxPool) { PoolOk(p) && RxPartition(p) && OneTaskPerSource(p) }

  ghost predicate PoolGood(w: Sender, ds: set<Delivery>, p: RxPool) {
    Shaped(p) && forall k :: 0 <= k < |p.active| ==> TaskOk(w, ds, p.tasks[p.active[k]])
  }

  // ---------- shape ----------

  lemma ReleaseIndex(p: RxPool, s: nat) returns (k: nat)
    requires s < |p.tasks| && s in p.active
    ensures k < |p.active| && p.active[k] == s
    ensures RxRelease(p, s).active == p.active[..k] + p.active[k + 1..] && RxSlots(RxRelease(p, s)) == RxSlots(p)
  {
    k := FirstIndex(p.active, s);
    WithoutIndex(p.active, k);
    CutMultiset(p.active, k);
  }

  lemma ReleaseShape(p: RxPool, s: nat)
    requires Shaped(p) && s in p.active
    ensures s < |p.tasks| && Shaped(RxRelease(p, s))
    ensures forall k :: 0 <= k < |RxRelease(p, s).active| ==>
              RxRelease(p, s).active[k] in p.active && p.tasks[RxRelease(p, s).active[k]].ctx.src != p.tasks[s].ctx.src
  {
    hide RxPartition;
    var k := ReleaseIndex(p, s);
    var r := RxRelease(p, s);
    assert forall j :: 0 <= j < |r.active| ==> r.active[j] == p.active[if j < k then j else j + 1];
    SamePartition(p, r);
  }

  lemma SamePartition(p: RxPool, r: RxPool)
    requires RxPartition(p) && RxSlots(r) == RxSlots(p) && |r.tasks| == |p.tasks|
    ensures RxPartition(r)
  {
  }

  lemma IdleHeadUnused(p: RxPool)
    requires Shaped(p) && p.idle != []
    ensures forall k :: 0 <= k < |p.active| ==> p.active[k] != p.idle[0]
  {
    assert p.idle[0] in multiset(p.idle);
    assert RxSlots(p)[p.idle[0]] == 1;
    NotIn(p.active, p.idle[0]);
  }

  lemma TakeShape(p: RxPool, c: MsgCtx, count: nat)
    requires Shaped(p) && p.idle != []
    requires forall k :: 0 <= k < |p.active| ==> p.tasks[p.active[k]].ctx.src != c.src
    ensures Shaped(TakeSlot(p, c, count))
    ensures var r := TakeSlot(p, c, count);
            forall k :: 0 <= k < |r.active| ==>
              r.tasks[r.active[k]] == if k < |p.active| then p.tasks[p.active[k]] else Refilled(Leftover(p, p.idle[0]), c, count)
  {
    var r := TakeSlot(p, c, count);
    IdleHeadUnused(p);
    assert p.idle == [p.idle[0]] + p.idle[1..];
    assert RxSlots(r) == RxSlots(p);
    assert forall k :: 0 <= k < |p.active| ==> r.active[k] == p.active[k];
  }

  /** Changing the contents of one active task, not its context. */
  lemma FillShape(p: RxPool, s: nat, t: RxTask)
    requires Shaped(p) && s < |p.tasks| && t.ctx == p.tasks[s].ctx
    ensures Shaped(p.(tasks := p.tasks[s := t]))
  {
    assert RxSlots(p.(tasks := p.tasks[s := t])) == RxSlots(p);
  }

  // ---------- a request ----------

  /** The slot this request takes, if any, holds nothing that would spoil the new message. */
  predicate TakesUsableSlot(p: RxPool, c: MsgCtx, count: nat)
    requires PoolOk(p)
  {
    var r := Request(p, c, count);
    r.taken && r.slot.Some? ==> Usable(Leftover(p, r.slot.value), count)
  }

  /** A pool that resets its slots has no other kind. */
  lemma ResetIsUsable(p: RxPool, c: MsgCtx, count: nat)
    requires PoolOk(p) && p.reset
    ensures TakesUsableSlot(p, c, count)
  {
  }

  /** A request keeps the pool in shape; every active task it leaves was there before or is the new one. */
  lemma RequestShape(p: RxPool, c: MsgCtx, count: nat)
    requires Shaped(p)
    ensures var r := Request(p, c, count);
            && Shaped(r.pool)
            && (r.slot.Some? ==> r.slot.value in r.pool.active && r.pool.tasks[r.slot.value].ctx.src == c.src
                                 && AuthKey(r.pool.tasks[r.slot.value].ctx) == AuthKey(c))
            && (forall k :: 0 <= k < |r.pool.active| ==>
                  (r.taken && r.slot == Some(r.pool.active[k])
                   && r.pool.tasks[r.pool.active[k]] == Refilled(Leftover(p, r.pool.active[k]), c, count))
                  || (r.pool.active[k] in p.active && r.pool.tasks[r.pool.active[k]] == p.tasks[r.pool.active[k]]))
  {
    var k := FindSource(p, c.src, 0);
    if k == |p.active| {
      NewShape(p, c, count);
    } else if AuthKey(c) > AuthKey(p.tasks[p.active[k]].ctx) {
      ReleaseShape(p, p.active[k]);
      NewShape(RxRelease(p, p.active[k]), c, count);
    }
  }

  lemma NewShape(p: RxPool, c: MsgCtx, count: nat)
    requires Shaped(p)
    requires forall k :: 0 <= k < |p.active| ==> p.tasks[p.active[k]].ctx.src != c.src
    ensures var r := NewTask(p, c, count);
            && Shaped(r.pool)
            && (r.slot.Some? ==> r.slot.value in r.pool.active
                                 && r.pool.tasks[r.slot.value] == Refilled(Leftover(p, r.slot.value), c, count))
            && (r.slot.Some? <==> r.taken)
            && (forall k :: 0 <= k < |r.pool.active| ==>
                  (r.slot == Some(r.pool.active[k])
                   && r.pool.tasks[r.pool.active[k]] == Refilled(Leftover(p, r.pool.active[k]), c, count))
                  || (r.pool.active[k] in p.active && r.pool.tasks[r.pool.active[k]] == p.tasks[r.pool.active[k]]))
  {
    if p.idle != [] {
      TakeShape(p, c, count);
      IdleHeadUnused(p);
      var r := TakeSlot(p, c, count);
      assert r.active[|p.active|] == p.idle[0];
      forall k | 0 <= k < |p.active| ensures r.active[k] in p.active && r.tasks[r.active[k]] == p.tasks[r.active[k]] {
        assert r.active[k] == p.active[k];
      }
    }
  }

  /** A task that loses its place was from the same source and strictly older. */
  lemma OnlyOlderTasksAreReplaced(p: RxPool, c: MsgCtx, count: nat, k: nat)
    requires Shaped(p) && k < |p.active|
    ensures var r, t := Request(p, c, count), p.tasks[p.active[k]];
            (p.active[k] in r.pool.active && r.pool.tasks[p.active[k]] == t)
            || (t.ctx.src == c.src && AuthKey(t.ctx) < AuthKey(c))
  {
    hide RxPartition, TakeSlot, RxRelease;
    var f := FindSource(p, c.src, 0);
    if f == |p.active| {
      StaysActive(p, c, count, k);
    } else if AuthKey(c) > AuthKey(p.tasks[p.active[f]].ctx) && k != f {
      var q := RxRelease(p, p.active[f]);
      StaysAfterRelease(p, p.active[f], k);
      var j :| 0 <= j < |q.active| && q.active[j] == p.active[k];
      StaysActive(q, c, count, j);
    }
  }

  lemma StaysAfterRelease(p: RxPool, s: nat, k: nat)
    requires Shaped(p) && s in p.active && k < |p.active| && p.active[k] != s
    ensures var r := RxRelease(p, s);
            Shaped(r) && r.tasks == p.tasks && exists j :: 0 <= j < |r.active| && r.active[j] == p.active[k]
  {
    ReleaseShape(p, s);
    var c := ReleaseIndex(p, s);
    assert RxRelease(p, s).active[if k < c then k else k - 1] == p.active[k];
  }

  lemma StaysActive(p: RxPool, c: MsgCtx, count: nat, k: nat)
    requires Shaped(p) && k < |p.active|
    ensures var r := NewTask(p, c, count); p.active[k] in r.pool.active && r.pool.tasks[p.active[k]] == p.tasks[p.active[k]]
  {
    if p.idle != [] {
      IdleHeadUnused(p);
      assert TakeSlot(p, c, count).active[k] == p.active[k];
    }
  }

  // ---------- contents ----------

  function After(ds: set<Delivery>, r: RxOut): set<Delivery> {
    if r.delivered.Some? then ds + {r.delivered.value} else ds
  }

  /** An acknowledgement never claims more than the message has, and claims all of it only once the
      message has been handed up, octet for octet. */
  ghost predicate AckOk(w: Sender, ds: set<Delivery>, a: Ack) {
    Own(w, a.ctx.src) ==>
      exists j :: 0 <= j < |w.log| && Belongs(a.ctx, w.log[j])
                  && a.block <= Bits(SegCount(|w.log[j].use.pdu|, a.ctx.ctl))
                  && (a.block == Bits(SegCount(|w.log[j].use.pdu|, a.ctx.ctl)) ==>
                        HasDelivered(ds, KeyOf(a.ctx), w.log[j].use.pdu))
  }

  lemma MoreDelivered(w: Sender, ds: set<Delivery>, es: set<Delivery>, p: RxPool)
    requires PoolGood(w, ds, p) && ds <= es
    ensures PoolGood(w, es, p)
  {
    forall k | 0 <= k < |p.active| ensures TaskOk(w, es, p.tasks[p.active[k]]) { MoreTaskOk(w, ds, es, p.tasks[p.active[k]]); }
  }

  lemma MoreTaskOk(w: Sender, ds: set<Delivery>, es: set<Delivery>, t: RxTask)
    requires TaskOk(w, ds, t) && ds <= es
    ensures TaskOk(w, es, t)
  {
    if Own(w, t.ctx.src) {
      var j :| 0 <= j < |w.log| && TaskOf(t, w.log[j], ds);
      assert TaskOf(t, w.log[j], es);
    }
  }

  lemma ReleaseContents(w: Sender, ds: set<Delivery>, p: RxPool, s: nat)
    requires PoolGood(w, ds, p) && s in p.active
    ensures s < |p.tasks| && PoolGood(w, ds, RxRelease(p, s))
  {
    ReleaseShape(p, s);
    var r := RxRelease(p, s);
    forall k | 0 <= k < |r.active| ensures TaskOk(w, ds, r.tasks[r.active[k]]) {
      var i :| 0 <= i < |p.active| && p.active[i] == r.active[k];
      assert TaskOk(w, ds, p.tasks[p.active[i]]);
    }
  }

  lemma FillContents(w: Sender, ds: set<Delivery>, p: RxPool, s: nat, t: RxTask)
    requires PoolGood(w, ds, p) && s < |p.tasks| && t.ctx == p.tasks[s].ctx && TaskOk(w, ds, t)
    ensures PoolGood(w, ds, p.(tasks := p.tasks[s := t]))
  {
    FillShape(p, s, t);
  }

  lemma RequestContents(w: Sender, ds: set<Delivery>, p: RxPool, c: MsgCtx, count: nat)
    requires PoolGood(w, ds, p)
    requires var r := Request(p, c, count); r.taken && r.slot.Some? ==> TaskOk(w, ds, Refilled(Leftover(p, r.slot.value), c, count))
    ensures PoolGood(w, ds, Request(p, c, count).pool)
  {
    RequestShape(p, c, count);
    var r := Request(p, c, count);
    forall k | 0 <= k < |r.pool.active| ensures TaskOk(w, ds, r.pool.tasks[r.pool.active[k]]) {
      if r.pool.active[k] in p.active && r.pool.tasks[r.pool.active[k]] == p.tasks[r.pool.active[k]] {
        var i :| 0 <= i < |p.active| && p.active[i] == r.pool.active[k];
        assert TaskOk(w, ds, p.tasks[p.active[i]]);
      }
    }
  }
}
