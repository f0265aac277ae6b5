// The segmented transport end to end: one sending node, any number of receivers, and a network that may lose,
// duplicate, reorder and delay every segment and every acknowledgement.

module Transport {
  import opened Bytes
  import opened Mesh
  import opened Segments
  import opened IvIndex
  import opened TxNode
  import opened RxNode
  import opened Scheduler
  import opened Messages
  import opened Freshness
  import opened RxPools
  import opened Reassembly

  /** Every frame in the node's log and every acknowledgement ever sent stays in the network. delivered: what
      receivers handed up; done: the messages the sender ended because all segments were acknowledged. */
  datatype Net = Net(n: Node, rx: map<nat, RxPool>, acks: set<Ack>, delivered: set<Delivery>, done: set<Key>)

  datatype Event =
    | Local(e: Step)                                                      // anything the sender does by itself
    | SegmentArrives(i: nat, rest: seq<byte>, replayOk: bool)             // draw i of the sender's log, at its destination
    | OtherArrives(at: nat, c: MsgCtx, p: seq<byte>, len: nat, replayOk: bool) // a segment from another node
    | AckTimer(at: nat, slot: nat)
    | StoreTimer(at: nat, slot: nat)
    | AckReturns(a: Ack)

  function Sender0(n: Node): Sender { Sender(n.addr, |n.counters|, n.log) }

  predicate Possible(s: Net, v: Event)
    requires NodeOk(s.n)
  {
    match v
    case Local(e) => Enabled(s.n, e) && !e.AckArrives?
    case SegmentArrives(i, rest, _) =>
      && i < |s.n.log| && s.n.log[i].use.OnAir? && s.n.log[i].use.ctx.seg && s.n.log[i].use.ctx.dst in s.rx
      && (s.n.log[i].use.ctx.ctl ==> s.n.log[i].use.ctx.opcode != 0) // opcode 0 goes to the acknowledgement handler
      && |s.n.log[i].use.frame| + |rest| == 20
      && 4 <= |s.n.log[i].use.frame| <= (if s.n.log[i].use.ctx.ctl then 12 else 16)
      && PoolOk(s.rx[s.n.log[i].use.ctx.dst])
    case OtherArrives(at, c, p, len, _) =>
      at in s.rx && !OwnSource(s.n, c.src) && |p| == 20 && len <= (if c.ctl then 12 else 16) && PoolOk(s.rx[at])
    case AckTimer(at, slot) => at in s.rx && slot in s.rx[at].active && slot < |s.rx[at].tasks|
    case StoreTimer(at, slot) => at in s.rx && slot in s.rx[at].active && slot < |s.rx[at].tasks|
    case AckReturns(a) => a in s.acks && OwnSource(s.n, a.ctx.src)
  }

  /** Network effect of one receive call at the pool of `at`. */
  function Received(s: Net, at: nat, r: RxOut): Net {
    s.(rx := s.rx[at := r.pool], acks := if r.ack.Some? then s.acks + {r.ack.value} else s.acks,
       delivered := After(s.delivered, r))
  }

  /** What the two fields of an acknowledgement PDU do at the sender. */
  function AckTaken(s: Net, seqZero: nat, block: set<nat>): Net
    requires NodeOk(s.n)
  {
    s.(n := ReceiveAck(s.n, seqZero, block),
       done := match AckedSlot(s.n, seqZero, 0)
               case None => s.done
               case Some(t) => if s.n.tasks[t].segBits == block then s.done + {KeyOf(s.n.tasks[t].ctx)} else s.done)
  }

  function NextNet(s: Net, v: Event): Net
    requires NodeOk(s.n) && IvValid(s.n.iv) && Possible(s, v)
  {
    match v
    case Local(e) => s.(n := Do(s.n, e))
    case SegmentArrives(i, rest, replayOk) =>
      var d := s.n.log[i];
      Received(s, d.use.ctx.dst,
               Receive(s.rx[d.use.ctx.dst], NetCtx(d.use.ctx), d.use.frame + rest, |d.use.frame|, replayOk))
    case OtherArrives(at, c, p, len, replayOk) => Received(s, at, Receive(s.rx[at], c, p, len, replayOk))
    case AckTimer(at, slot) => s.(acks := s.acks + {Ack(s.rx[at].tasks[slot].ctx, s.rx[at].tasks[slot].blockAck)})
    case StoreTimer(at, slot) => s.(rx := s.rx[at := RxRelease(s.rx[at], slot)])
    case AckReturns(a) => AckTaken(s, SeqZero(a.ctx.seqAuth), a.block)
  }

  // ---------- the conditions a run must meet ----------

  /** The task an acknowledgement ends is the one it was sent for. It is looked up by SeqZero alone;
      AckMatching says exactly when that goes wrong. */
  predicate EndsItsOwnTask(n: Node, a: Ack)
    requires NodeOk(n)
  {
    match AckedSlot(n, SeqZero(a.ctx.seqAuth), 0)
    case None => true
    case Some(t) => n.tasks[t].segBits == a.block ==> KeyOf(n.tasks[t].ctx) == KeyOf(a.ctx)
  }

  /** Counters stay below their maximum, no IV recovery meets a message that may still send, callers do their duty, and
      acknowledgements end their own tasks. */
  ghost predicate FairStep(s: Net, v: Event)
    requires NodeOk(s.n) && Possible(s, v)
  {
    && (forall i :: 0 <= i < |s.n.log| ==> s.n.log[i].sqn < SEQ_MAX)
    && match v
       case Local(e) => !UnguardedClear(s.n, e) && Dutiful(s.n, e)
       case AckReturns(a) => EndsItsOwnTask(s.n, a)
       case _ => true
  }

  /** A message that starts a reassembly task finds a usable slot; at a pool that resets its slots it always does. */
  ghost predicate FindsUsableSlot(s: Net, v: Event)
    requires NodeOk(s.n) && Possible(s, v)
  {
    match v
    case SegmentArrives(i, rest, _) =>
      var c, p := s.n.log[i].use.ctx, s.n.log[i].use.frame + rest;
      TakesUsableSlot(s.rx[c.dst], HeadCtx(NetCtx(c), ParseHead(p)), ParseHead(p).segn + 1)
    case _ => true
  }

  ghost predicate Fair(s: Net, v: Event)
    requires NodeOk(s.n) && Possible(s, v)
  {
    FairStep(s, v) && FindsUsableSlot(s, v)
  }

  // ---------- the invariant ----------

  ghost predicate Finished(s: Net, k: Key) {
    exists j :: 0 <= j < |s.n.log| && s.n.log[j].use.Message? && KeyOf(s.n.log[j].use.ctx) == k
                && HasDelivered(s.delivered, k, s.n.log[j].use.pdu)
  }

  /** Every message numbered under key k was handed up. */
  ghost predicate AllHandedUp(s: Net, k: Key) {
    forall j :: 0 <= j < |s.n.log| && s.n.log[j].use.Message? && KeyOf(s.n.log[j].use.ctx) == k && s.n.log[j].sqn < SEQ_MAX ==>
      HasDelivered(s.delivered, k, s.n.log[j].use.pdu)
  }

  /** What was handed up for one of our messages is that message. */
  ghost predicate Faithful(s: Net, d: Delivery) {
    OwnSource(s.n, d.ctx.src) ==>
      d.ctx.seg && exists j :: 0 <= j < |s.n.log| && Belongs(d.ctx, s.n.log[j]) && s.n.log[j].use.pdu == d.data
  }

  ghost predicate NodeInv(n: Node) { Sched(n) && Good(n) && Fresh(n) }

  ghost predicate RxInv(s: Net) {
    && (forall at :: at in s.rx ==> PoolGood(Sender0(s.n), s.delivered, s.rx[at]))
    && (forall a :: a in s.acks ==> AckOk(Sender0(s.n), s.delivered, a))
    && (forall d :: d in s.delivered ==> Faithful(s, d))
  }

  ghost predicate Inv(s: Net) {
    NodeInv(s.n) && RxInv(s) && forall k :: k in s.done ==> Finished(s, k)
  }

  // ---------- the log grows ----------

  lemma BelongsGrows(w: Sender, v: Sender, ds: set<Delivery>, t: RxTask)
    requires TaskOk(w, ds, t) && w.log <= v.log && v.addr == w.addr && v.elements == w.elements
    ensures TaskOk(v, ds, t)
  {
    if Own(w, t.ctx.src) {
      var j :| 0 <= j < |w.log| && TaskOf(t, w.log[j], ds);
      assert v.log[j] == w.log[j];
    }
  }

  lemma PoolGrows(w: Sender, v: Sender, ds: set<Delivery>, p: RxPool)
    requires PoolGood(w, ds, p) && w.log <= v.log && v.addr == w.addr && v.elements == w.elements
    ensures PoolGood(v, ds, p)
  {
    forall k | 0 <= k < |p.active| ensures TaskOk(v, ds, p.tasks[p.active[k]]) { BelongsGrows(w, v, ds, p.tasks[p.active[k]]); }
  }

  lemma AckGrows(w: Sender, v: Sender, ds: set<Delivery>, es: set<Delivery>, a: Ack)
    requires AckOk(w, ds, a) && w.log <= v.log && v.addr == w.addr && v.elements == w.elements && ds <= es
    ensures AckOk(v, es, a)
  {
    if Own(w, a.ctx.src) {
      var j :| 0 <= j < |w.log| && Belongs(a.ctx, w.log[j])
               && a.block <= Bits(SegCount(|w.log[j].use.pdu|, a.ctx.ctl))
               && (a.block == Bits(SegCount(|w.log[j].use.pdu|, a.ctx.ctl)) ==>
                     HasDelivered(ds, KeyOf(a.ctx), w.log[j].use.pdu));
      assert v.log[j] == w.log[j];
    }
  }

  lemma FaithfulGrows(s: Net, t: Net, d: Delivery)
    requires Faithful(s, d) && s.n.log <= t.n.log && t.n.addr == s.n.addr && |t.n.counters| == |s.n.counters|
    ensures Faithful(t, d)
  {
    if OwnSource(s.n, d.ctx.src) {
      var j :| 0 <= j < |s.n.log| && Belongs(d.ctx, s.n.log[j]) && s.n.log[j].use.pdu == d.data;
      assert t.n.log[j] == s.n.log[j];
    }
  }

  lemma FinishedGrows(s: Net, t: Net, k: Key)
    requires Finished(s, k) && s.n.log <= t.n.log && s.delivered <= t.delivered
    ensures Finished(t, k)
  {
    var j :| 0 <= j < |s.n.log| && s.n.log[j].use.Message? && KeyOf(s.n.log[j].use.ctx) == k
             && HasDelivered(s.delivered, k, s.n.log[j].use.pdu);
    assert t.n.log[j] == s.n.log[j];
  }

  // ---------- every event keeps the invariant ----------

  lemma NumberingOfNode(n: Node)
    requires NodeInv(n)
    ensures Numbering(Sender0(n))
  {
  }

  lemma LocalKeeps(s: Net, e: Step)
    requires Inv(s) && Possible(s, Local(e)) && !UnguardedClear(s.n, e) && Dutiful(s.n, e)
    ensures Inv(NextNet(s, Local(e)))
  {
    DoGood(s.n, e);
    DoSched(s.n, e);
    DoFresh(s.n, e);
    GrownNode(s, s.(n := Do(s.n, e)));
  }

  /** A step that changes only the node. */
  lemma GrownNode(s: Net, t: Net)
    requires Inv(s) && NodeInv(t.n) && t == s.(n := t.n) && Extends(s.n, t.n)
    ensures Inv(t)
  {
    hide NodeInv, PoolGood, AckOk, Faithful, Finished;
    var w, v := Sender0(s.n), Sender0(t.n);
    forall at | at in t.rx ensures PoolGood(v, t.delivered, t.rx[at]) { PoolGrows(w, v, s.delivered, s.rx[at]); }
    forall a | a in t.acks ensures AckOk(v, t.delivered, a) { AckGrows(w, v, s.delivered, t.delivered, a); }
    forall d | d in t.delivered ensures Faithful(t, d) { FaithfulGrows(s, t, d); }
    forall k | k in t.done ensures Finished(t, k) { FinishedGrows(s, t, k); }
  }

  /** A receive call with a good outcome. */
  lemma ReceivedKeeps(s: Net, at: nat, r: RxOut)
    requires Inv(s) && at in s.rx
    requires PoolGood(Sender0(s.n), After(s.delivered, r), r.pool)
    requires r.ack.Some? ==> AckOk(Sender0(s.n), After(s.delivered, r), r.ack.value)
    requires r.delivered.Some? ==> Faithful(s, r.delivered.value)
    ensures Inv(Received(s, at, r))
  {
    hide NodeInv, PoolGood, AckOk, Faithful, Finished;
    var t, w, es := Received(s, at, r), Sender0(s.n), After(s.delivered, r);
    forall x | x in t.rx ensures PoolGood(w, es, t.rx[x]) {
      if x != at { MoreDelivered(w, s.delivered, es, s.rx[x]); }
    }
    forall a | a in s.acks ensures AckOk(w, es, a) { AckGrows(w, w, s.delivered, es, a); }
    forall d | d in t.delivered ensures Faithful(t, d) {
      if d in s.delivered { FaithfulGrows(s, t, d); } else { FaithfulGrows(s, t, r.delivered.value); }
    }
    forall k | k in t.done ensures Finished(t, k) { FinishedGrows(s, t, k); }
  }

  lemma SegmentKeeps(s: Net, i: nat, rest: seq<byte>, replayOk: bool)
    requires Inv(s) && Possible(s, SegmentArrives(i, rest, replayOk)) && Fair(s, SegmentArrives(i, rest, replayOk))
    ensures Inv(NextNet(s, SegmentArrives(i, rest, replayOk)))
  {
    hide PoolGood, AckOk, Receive, ParseHead, Faithful, Finished;
    var d, w := s.n.log[i], Sender0(s.n);
    if Own(w, d.src) { OwnArrival(s, i, rest, replayOk); } else { ForeignArrival(s, i, rest, replayOk); }
    ReceivedKeeps(s, d.use.ctx.dst, Receive(s.rx[d.use.ctx.dst], NetCtx(d.use.ctx), d.use.frame + rest, |d.use.frame|, replayOk));
  }

  ghost predicate GoodOut(s: Net, r: RxOut) {
    && PoolGood(Sender0(s.n), After(s.delivered, r), r.pool)
    && (r.ack.Some? ==> AckOk(Sender0(s.n), After(s.delivered, r), r.ack.value))
    && (r.delivered.Some? ==> Faithful(s, r.delivered.value))
  }

  lemma OwnArrival(s: Net, i: nat, rest: seq<byte>, replayOk: bool)
    requires Inv(s) && Possible(s, SegmentArrives(i, rest, replayOk)) && Fair(s, SegmentArrives(i, rest, replayOk))
    requires Own(Sender0(s.n), s.n.log[i].src)
    ensures var c, f := s.n.log[i].use.ctx, s.n.log[i].use.frame;
            GoodOut(s, Receive(s.rx[c.dst], NetCtx(c), f + rest, |f|, replayOk))
  {
    hide PoolGood, AckOk, Receive, ParseHead, Request;
    var d, w := s.n.log[i], Sender0(s.n);
    var p, len := d.use.frame + rest, |d.use.frame|;
    assert DrawOk(s.n.log, d);
    var j, k :| 0 <= j < |s.n.log| && IsFrameOf(d, s.n.log[j], k);
    NumberingOfNode(s.n);
    assert DrawOk(s.n.log, s.n.log[j]);
    assert p[..len] == d.use.frame;
    ArrivedHead(p, len, d, w.log[j], k, w.log);
    OwnSegmentArrives(w, s.delivered, s.rx[d.use.ctx.dst], p, len, d, j, k, replayOk);
  }

  lemma ForeignArrival(s: Net, i: nat, rest: seq<byte>, replayOk: bool)
    requires Inv(s) && Possible(s, SegmentArrives(i, rest, replayOk)) && !Own(Sender0(s.n), s.n.log[i].src)
    ensures var c, f := s.n.log[i].use.ctx, s.n.log[i].use.frame;
            GoodOut(s, Receive(s.rx[c.dst], NetCtx(c), f + rest, |f|, replayOk))
  {
    hide PoolGood, AckOk, Receive;
    var d, w := s.n.log[i], Sender0(s.n);
    assert DrawOk(s.n.log, d);
    var j, k :| 0 <= j < |s.n.log| && IsFrameOf(d, s.n.log[j], k);
    var p, len := d.use.frame + rest, |d.use.frame|;
    ForeignSegmentArrives(w, s.delivered, s.rx[d.use.ctx.dst], NetCtx(d.use.ctx), p, len, replayOk);
    ForeignOut(s, d.use.ctx.dst, Receive(s.rx[d.use.ctx.dst], NetCtx(d.use.ctx), p, len, replayOk));
  }

  lemma ForeignOut(s: Net, at: nat, r: RxOut)
    requires Inv(s) && PoolGood(Sender0(s.n), s.delivered, r.pool)
    requires (r.ack.Some? ==> !OwnSource(s.n, r.ack.value.ctx.src)) && (r.delivered.Some? ==> !OwnSource(s.n, r.delivered.value.ctx.src))
    ensures PoolGood(Sender0(s.n), After(s.delivered, r), r.pool)
    ensures r.ack.Some? ==> AckOk(Sender0(s.n), After(s.delivered, r), r.ack.value)
    ensures r.delivered.Some? ==> Faithful(s, r.delivered.value)
  {
    MoreDelivered(Sender0(s.n), s.delivered, After(s.delivered, r), r.pool);
  }

  lemma OtherKeeps(s: Net, at: nat, c: MsgCtx, p: seq<byte>, len: nat, replayOk: bool)
    requires Inv(s) && Possible(s, OtherArrives(at, c, p, len, replayOk))
    ensures Inv(NextNet(s, OtherArrives(at, c, p, len, replayOk)))
  {
    hide PoolGood, AckOk, Receive;
    var r := Receive(s.rx[at], c, p, len, replayOk);
    ForeignSegmentArrives(Sender0(s.n), s.delivered, s.rx[at], c, p, len, replayOk);
    ForeignOut(s, at, r);
    ReceivedKeeps(s, at, r);
  }

  lemma AckTimerKeeps(s: Net, at: nat, slot: nat)
    requires Inv(s) && Possible(s, AckTimer(at, slot))
    ensures Inv(NextNet(s, AckTimer(at, slot)))
  {
    var p, t, w := s.rx[at], s.rx[at].tasks[slot], Sender0(s.n);
    var a := Ack(t.ctx, t.blockAck);
    assert PoolGood(w, s.delivered, p);
    HeldAck(w, s.delivered, p, slot);
    ReceivedKeeps(s, at, RxOut(p, Some(a), None, false));
    assert NextNet(s, AckTimer(at, slot)) == Received(s, at, RxOut(p, Some(a), None, false)) by {
      assert s.rx[at := p] == s.rx;
    }
  }

  lemma HeldAck(w: Sender, ds: set<Delivery>, p: RxPool, slot: nat)
    requires PoolGood(w, ds, p) && slot in p.active && slot < |p.tasks|
    ensures AckOk(w, ds, Ack(p.tasks[slot].ctx, p.tasks[slot].blockAck))
  {
    var k := FirstIndex(p.active, slot);
    var t := p.tasks[slot];
    assert TaskOk(w, ds, p.tasks[p.active[k]]);
    if Own(w, t.ctx.src) {
      var j :| 0 <= j < |w.log| && TaskOf(t, w.log[j], ds);
      FullTask(w, ds, t, j);
    }
  }

  lemma FullTask(w: Sender, ds: set<Delivery>, t: RxTask, j: nat)
    requires j < |w.log| && TaskOf(t, w.log[j], ds)
    ensures AckOk(w, ds, Ack(t.ctx, t.blockAck))
  {
    CompleteTask(t, t.ctx.ctl, w.log[j].use.pdu);
  }

  lemma StoreTimerKeeps(s: Net, at: nat, slot: nat)
    requires Inv(s) && Possible(s, StoreTimer(at, slot))
    ensures Inv(NextNet(s, StoreTimer(at, slot)))
  {
    var r := RxOut(RxRelease(s.rx[at], slot), None, None, false);
    assert PoolGood(Sender0(s.n), s.delivered, s.rx[at]);
    ReleaseContents(Sender0(s.n), s.delivered, s.rx[at], slot);
    ReceivedKeeps(s, at, r);
  }

  /** The heart of the matter: an acknowledgement that ends a task means its message was handed up. */
  lemma FullAckMeansDelivered(s: Net, a: Ack, t: nat)
    requires Inv(s) && a in s.acks && OwnSource(s.n, a.ctx.src)
    requires AckedSlot(s.n, SeqZero(a.ctx.seqAuth), 0) == Some(t) && s.n.tasks[t].segBits == a.block
    requires KeyOf(s.n.tasks[t].ctx) == KeyOf(a.ctx) && forall i :: 0 <= i < |s.n.log| ==> s.n.log[i].sqn < SEQ_MAX
    ensures Finished(s, KeyOf(s.n.tasks[t].ctx))
  {
    var task := s.n.tasks[t];
    var x := FirstIndex(s.n.active, t);
    assert TaskGood(s.n, s.n.tasks[s.n.active[x]]);
    var j :| 0 <= j < |s.n.log| && IsMessageOf(s.n.log[j], task);
    assert AckOk(Sender0(s.n), s.delivered, a);
    var i :| 0 <= i < |s.n.log| && Belongs(a.ctx, s.n.log[i])
             && a.block <= Bits(SegCount(|s.n.log[i].use.pdu|, a.ctx.ctl))
             && (a.block == Bits(SegCount(|s.n.log[i].use.pdu|, a.ctx.ctl)) ==>
                   HasDelivered(s.delivered, KeyOf(a.ctx), s.n.log[i].use.pdu));
    assert DrawOk(s.n.log, s.n.log[i]) && DrawOk(s.n.log, s.n.log[j]);
    assert i == j by { assert SameNonce(s.n.log[i], s.n.log[j]) && SameNonce(s.n.log[j], s.n.log[i]); }
  }

  lemma AckKeeps(s: Net, a: Ack)
    requires Inv(s) && Possible(s, AckReturns(a)) && Fair(s, AckReturns(a))
    ensures Inv(NextNet(s, AckReturns(a)))
  {
    var z := SeqZero(a.ctx.seqAuth);
    var n := ReceiveAck(s.n, z, a.block);
    ReceiveAckGood(s.n, z, a.block);
    ReceiveAckSched(s.n, z, a.block);
    ReceiveAckFresh(s.n, z, a.block);
    var u := s.(done := NextNet(s, AckReturns(a)).done);
    AckDone(s, a, u);
    GrownNode(u, u.(n := n));
  }

  lemma AckDone(s: Net, a: Ack, u: Net)
    requires Inv(s) && Possible(s, AckReturns(a)) && Fair(s, AckReturns(a)) && u == s.(done := NextNet(s, AckReturns(a)).done)
    ensures Inv(u)
  {
    hide ReceiveAck, Good, Fresh, PoolGood, AckOk, Faithful;
    forall d | d in u.delivered ensures Faithful(u, d) { FaithfulGrows(s, u, d); }
    forall k | k in u.done ensures Finished(u, k) {
      var f := AckedSlot(s.n, SeqZero(a.ctx.seqAuth), 0);
      if k !in s.done { FullAckMeansDelivered(s, a, f.value); }
      FinishedGrows(s, u, k);
    }
  }

  // ---------- whole runs ----------

  /** A run in which every event is possible and fair when it happens. */
  ghost predicate FairRun(s: Net, vs: seq<Event>)
    requires NodeOk(s.n) && IvValid(s.n.iv)
    decreases |vs|
  {
    vs == [] || (Possible(s, vs[0]) && Fair(s, vs[0]) && NodeOk(NextNet(s, vs[0]).n) && IvValid(NextNet(s, vs[0]).n.iv)
                 && FairRun(NextNet(s, vs[0]), vs[1..]))
  }

  ghost function RunNet(s: Net, vs: seq<Event>): Net
    requires NodeOk(s.n) && IvValid(s.n.iv) && FairRun(s, vs)
    decreases |vs|
  {
    if vs == [] then s else RunNet(NextNet(s, vs[0]), vs[1..])
  }

  /** s is where the run vs leads from a start state. */
  ghost predicate Reached(s0: Net, vs: seq<Event>, s: Net) {
    Start(s0) && NodeOk(s0.n) && IvValid(s0.n.iv) && FairRun(s0, vs) && s == RunNet(s0, vs)
  }

  lemma EventKeeps(s: Net, v: Event)
    requires Inv(s) && Possible(s, v) && Fair(s, v)
    ensures Inv(NextNet(s, v))
  {
    hide Inv, NextNet;
    match v
    case Local(e) => LocalKeeps(s, e);
    case SegmentArrives(i, rest, replayOk) => SegmentKeeps(s, i, rest, replayOk);
    case OtherArrives(at, c, p, len, replayOk) => OtherKeeps(s, at, c, p, len, replayOk);
    case AckTimer(at, slot) => AckTimerKeeps(s, at, slot);
    case StoreTimer(at, slot) => StoreTimerKeeps(s, at, slot);
    case AckReturns(a) => AckKeeps(s, a);
  }

  lemma {:induction false} RunKeeps(s: Net, vs: seq<Event>)
    requires Inv(s) && FairRun(s, vs)
    ensures Inv(RunNet(s, vs))
    decreases |vs|
  {
    hide NextNet;
    if vs != [] {
      EventKeeps(s, vs[0]);
      RunKeeps(NextNet(s, vs[0]), vs[1..]);
    }
  }

  predicate Start(s: Net) {
    && Initial(s.n) && s.acks == {} && s.delivered == {} && s.done == {}
    && forall at :: at in s.rx ==> s.rx[at].idle == Range(|s.rx[at].tasks|) && s.rx[at].active == []
  }

  lemma StartInv(s: Net)
    requires Start(s)
    ensures Inv(s)
  {
    InitialSched(s.n);
    InitialFresh(s.n);
    forall at | at in s.rx ensures PoolGood(Sender0(s.n), {}, s.rx[at]) {
      forall x: nat ensures RxSlots(s.rx[at])[x] == if x < |s.rx[at].tasks| then 1 else 0 { RangeCount(|s.rx[at].tasks|, x); }
    }
  }

  /** Whatever the network loses, repeats, reorders or delays: when the sender ends a message because all its
      segments were acknowledged, its destination has handed up exactly that message and every message the sender
      numbered under that key, and nothing a receiver
      ever hands up for this sender differs from a message the sender numbered. */
  lemma SegmentationSafety(s0: Net, vs: seq<Event>, s: Net, k: Key)
    requires Reached(s0, vs, s)
    ensures k in s.done ==> Finished(s, k) && AllHandedUp(s, k)
    ensures forall d :: d in s.delivered ==> Faithful(s, d)
  {
    ReachedInv(s0, vs, s);
    InvSafe(s, k);
    hide *;
  }

  lemma InvSafe(s: Net, k: Key)
    requires Inv(s)
    ensures k in s.done ==> Finished(s, k) && AllHandedUp(s, k)
    ensures forall d :: d in s.delivered ==> Faithful(s, d)
  {
    if k in s.done { FinishedIsAll(s, k); }
  }

  /** Only one message has the key. */
  lemma FinishedIsAll(s: Net, k: Key)
    requires Traced(s.n.log) && NoReuse(s.n.log) && Finished(s, k)
    ensures AllHandedUp(s, k)
  {
    var i :| 0 <= i < |s.n.log| && s.n.log[i].use.Message? && KeyOf(s.n.log[i].use.ctx) == k
             && HasDelivered(s.delivered, k, s.n.log[i].use.pdu);
    forall j | 0 <= j < |s.n.log| && s.n.log[j].use.Message? && KeyOf(s.n.log[j].use.ctx) == k && s.n.log[j].sqn < SEQ_MAX
      ensures j == i
    {
      assert DrawOk(s.n.log, s.n.log[i]) && DrawOk(s.n.log, s.n.log[j]);
      assert SameNonce(s.n.log[i], s.n.log[j]) && SameNonce(s.n.log[j], s.n.log[i]);
    }
  }

  lemma ReachedInv(s0: Net, vs: seq<Event>, s: Net)
    requires Reached(s0, vs, s)
    ensures Inv(s)
  {
    StartInv(s0);
    RunKeeps(s0, vs);
  }

  /** What was handed up under a message's key is that message. */
  lemma DeliveredIs(s: Net, j: nat, d: Delivery)
    requires Inv(s) && j < |s.n.log| && s.n.log[j].use.Message? && s.n.log[j].sqn < SEQ_MAX && OwnSource(s.n, s.n.log[j].src)
    requires d in s.delivered && KeyOf(d.ctx) == KeyOf(s.n.log[j].use.ctx)
    ensures Belongs(d.ctx, s.n.log[j]) && d.ctx.seg && d.data == s.n.log[j].use.pdu
  {
    hide Sched, PoolGood, AckOk, Finished;
    assert DrawOk(s.n.log, s.n.log[j]);
    assert Faithful(s, d);
    var i :| 0 <= i < |s.n.log| && Belongs(d.ctx, s.n.log[i]) && s.n.log[i].use.pdu == d.data;
    assert DrawOk(s.n.log, s.n.log[i]);
    assert SameNonce(s.n.log[i], s.n.log[j]) && SameNonce(s.n.log[j], s.n.log[i]);
  }

  // ---------- receivers that reset their slots ----------

  ghost predicate AllReset(s: Net) { forall at :: at in s.rx ==> s.rx[at].reset }

  /** A run in which every event is possible and fair when it happens, whatever slots it finds. */
  ghost predicate FairStepsRun(s: Net, vs: seq<Event>)
    requires NodeOk(s.n) && IvValid(s.n.iv)
    decreases |vs|
  {
    vs == [] || (Possible(s, vs[0]) && FairStep(s, vs[0]) && NodeOk(NextNet(s, vs[0]).n) && IvValid(NextNet(s, vs[0]).n.iv)
                 && FairStepsRun(NextNet(s, vs[0]), vs[1..]))
  }

  lemma ResetStep(s: Net, v: Event)
    requires AllReset(s) && NodeOk(s.n) && IvValid(s.n.iv) && Possible(s, v)
    ensures FindsUsableSlot(s, v) && AllReset(NextNet(s, v))
  {
    hide ParseHead, Receive, Request, ReceiveAck, Do;
    if v.SegmentArrives? {
      var c, p := s.n.log[v.i].use.ctx, s.n.log[v.i].use.frame + v.rest;
      ResetIsUsable(s.rx[c.dst], HeadCtx(NetCtx(c), ParseHead(p)), ParseHead(p).segn + 1);
    }
  }

  lemma {:induction false} ResetRun(s: Net, vs: seq<Event>)
    requires AllReset(s) && NodeOk(s.n) && IvValid(s.n.iv) && FairStepsRun(s, vs)
    ensures FairRun(s, vs)
    decreases |vs|
  {
    hide NextNet, Possible, FairStep, FindsUsableSlot, AllReset, NodeOk, IvValid;
    if vs != [] {
      ResetStep(s, vs[0]);
      ResetRun(NextNet(s, vs[0]), vs[1..]);
    }
  }

  /** With receivers that reset their slots, safety holds over all fair traffic, with no condition on slots: any
      number of messages of any number of segments, one after the other through the same slots. */
  lemma SegmentationSafetyWithReset(s0: Net, vs: seq<Event>, k: Key)
    requires Start(s0) && AllReset(s0) && NodeOk(s0.n) && IvValid(s0.n.iv) && FairStepsRun(s0, vs)
    ensures FairRun(s0, vs)
    ensures var s := RunNet(s0, vs);
            Reached(s0, vs, s) && (k in s.done ==> Finished(s, k) && AllHandedUp(s, k)) && forall d :: d in s.delivered ==> Faithful(s, d)
  {
    hide *;
    ResetRun(s0, vs);
    ResetReached(s0, vs);
    SegmentationSafety(s0, vs, RunNet(s0, vs), k);
  }

  lemma ResetReached(s0: Net, vs: seq<Event>)
    requires Start(s0) && NodeOk(s0.n) && IvValid(s0.n.iv) && FairRun(s0, vs)
    ensures Reached(s0, vs, RunNet(s0, vs))
  {
  }
}
