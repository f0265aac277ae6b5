// The other half of segmentation safety: once every segment of a message has arrived, in whatever order and
// however often, the message is handed up and its acknowledgement ends the sender's task.

module Completion {
  import opened Bytes
  import opened Mesh
  import opened Segments
  import opened IvIndex
  import opened TxNode
  import opened RxNode
  import opened Scheduler
  import opened Messages
  import opened Freshness
  import opened RxPools
  import opened RxTight
  import opened RxTraffic
  import opened SlotReuse
  import opened Reassembly
  import opened Transport
  import opened AckMatching
  import opened Bursts

  // ---------- the receiver's pool ----------

  /** A segment of message c finds a slot holding exactly the segments in held: its own, or a usable idle one. */
  predicate Expecting(p: RxPool, c: MsgCtx, count: nat, held: set<nat>)
    requires PoolOk(p)
  {
    var r := Request(p, c, count);
    && TakesUsableSlot(p, c, count) && r.slot.Some? && r.pool.tasks[r.slot.value].blockAck == held
  }

  lemma SameRequest(p: RxPool, c: MsgCtx, d: MsgCtx, count: nat)
    requires PoolOk(p) && c.src == d.src && AuthKey(c) == AuthKey(d)
    ensures var r, q := Request(p, c, count), Request(p, d, count);
            r.slot == q.slot && r.taken == q.taken
            && (r.slot.Some? ==> r.pool.tasks[r.slot.value].blockAck == q.pool.tasks[q.slot.value].blockAck)
  {
  }

  lemma SameExpecting(p: RxPool, c: MsgCtx, d: MsgCtx, count: nat, held: set<nat>)
    requires PoolOk(p) && c.src == d.src && AuthKey(c) == AuthKey(d)
    ensures Expecting(p, c, count, held) == Expecting(p, d, count, held)
  {
    SameRequest(p, c, d, count);
    hide Request;
  }

  /** A source's active task is found for every later segment of its message. */
  lemma ActiveIsExpecting(p: RxPool, s: nat, c: MsgCtx, count: nat)
    requires Shaped(p) && s in p.active && s < |p.tasks|
    requires p.tasks[s].ctx.src == c.src && AuthKey(p.tasks[s].ctx) == AuthKey(c)
    ensures Expecting(p, c, count, p.tasks[s].blockAck)
  {
    var k := FirstIndex(p.active, s);
    var f := FindSource(p, c.src, 0);
    assert f < |p.active|;
    assert p.tasks[p.active[f]].ctx.src == p.tasks[p.active[k]].ctx.src;
  }

  /** Segment k, new or repeated, at the slot that reassembles its message. */
  lemma SlotTakesSegment(ds: set<Delivery>, p: RxPool, s: nat, c: MsgCtx, m: Draw, k: nat)
    requires PoolOk(p) && s in p.active && s < |p.tasks| && m.use.Message? && Belongs(c, m)
    requires TaskOf(p.tasks[s], m, ds) && KeyOf(p.tasks[s].ctx) == KeyOf(c)
    requires m.use.pdu != [] && k < SegCount(|m.use.pdu|, c.ctl)
    ensures var n := SegCount(|m.use.pdu|, c.ctl);
            var r := AtSlot(p, s, c, k, n - 1, SegData(m.use.pdu, c.ctl, k), true);
            && s in r.pool.active && s < |r.pool.tasks| && r.pool.tasks[s].ctx == p.tasks[s].ctx
            && r.pool.tasks[s].blockAck == p.tasks[s].blockAck + {k}
            && (p.tasks[s].blockAck + {k} == Bits(n) ==> r.ack == Some(Ack(c, Bits(n))))
  {
    TaskMatches(p.tasks[s], c, m, ds);
    SlotCases(ds, p.tasks[s], c, m, k);
    hide Matches, Belongs, TaskOf, SegData, SegCount, Accept;
  }

  lemma SlotCases(ds: set<Delivery>, t: RxTask, c: MsgCtx, m: Draw, k: nat)
    requires m.use.Message? && Belongs(c, m) && TaskOf(t, m, ds) && KeyOf(t.ctx) == KeyOf(c)
    requires m.use.pdu != [] && k < SegCount(|m.use.pdu|, c.ctl)
    ensures var n, d := SegCount(|m.use.pdu|, c.ctl), SegData(m.use.pdu, c.ctl, k);
            && (t.notReceived == {} <==> t.blockAck == Bits(n)) && (n == 1 ==> k == 0) && k in Bits(n)
            && (k !in t.notReceived ==> k in t.blockAck)
            && (k in t.notReceived ==>
                  k * SegSize(c.ctl) + |d| <= |t.buf|
                  && var u := Accept(t, c.ctl, k, n - 1, d);
                     u.ctx == t.ctx && u.blockAck == t.blockAck + {k}
                     && (u.notReceived == {} <==> u.blockAck == Bits(n)) && (u.notReceived == {} ==> u.pduLen <= |u.buf|))
  {
    CompleteTask(t, c.ctl, m.use.pdu);
    if k in t.notReceived {
      var u := OwnAccept(ds, t, c, m, k);
      CompleteTask(u, c.ctl, m.use.pdu);
      AcceptHolds(t, c.ctl, m.use.pdu, k);
    }
    hide HeldLen, Accept, SegData;
  }

  lemma SameKeyParts(c: MsgCtx, m: Draw)
    requires Belongs(c, m)
    ensures c.src == m.use.ctx.src && c.ctl == m.use.ctx.ctl && KeyOf(c) == KeyOf(m.use.ctx)
  {
  }

  lemma SameKeySameAuth(a: MsgCtx, b: MsgCtx)
    requires KeyOf(a) == KeyOf(b)
    ensures a.src == b.src && AuthKey(a) == AuthKey(b)
  {
  }

  /** What ArrivedHead says, for the slot the segment finds. */
  lemma SlotOfArrival(w: Sender, ds: set<Delivery>, pool: RxPool, c: MsgCtx, j: nat, held: set<nat>)
    requires PoolGood(w, ds, pool) && Numbering(w) && j < |w.log| && Belongs(c, w.log[j]) && w.log[j].sqn < SEQ_MAX
    requires Own(w, w.log[j].src) && Expecting(pool, w.log[j].use.ctx, SegCount(|w.log[j].use.pdu|, c.ctl), held)
    ensures var r := Request(pool, c, SegCount(|w.log[j].use.pdu|, c.ctl));
            && TakesUsableSlot(pool, c, SegCount(|w.log[j].use.pdu|, c.ctl))
            && r.slot.Some? && r.slot.value in r.pool.active && r.pool.tasks[r.slot.value].blockAck == held
            && TaskOf(r.pool.tasks[r.slot.value], w.log[j], ds) && KeyOf(r.pool.tasks[r.slot.value].ctx) == KeyOf(c)
  {
    assert DrawOk(w.log, w.log[j]);
    SameKeyParts(c, w.log[j]);
    SameKeySameAuth(c, w.log[j].use.ctx);
    var n := SegCount(|w.log[j].use.pdu|, c.ctl);
    hide TaskOf, PoolGood, Request, SegCount, Belongs, Numbering, TakesUsableSlot;
    SameExpecting(pool, c, w.log[j].use.ctx, n, held);
    OwnRequest(w, ds, pool, c, j);
  }

  /** At the receiver, with the header read and the data cut out. */
  lemma ProgressAtSlot(w: Sender, ds: set<Delivery>, pool: RxPool, p: seq<byte>, len: nat, c0: MsgCtx, j: nat, k: nat, held: set<nat>)
    requires PoolOk(pool) && Shaped(pool) && PoolGood(w, ds, pool) && Numbering(w)
    requires j < |w.log| && w.log[j].use.Message? && w.log[j].sqn < SEQ_MAX && Own(w, w.log[j].src)
    requires |p| == 20 && 4 <= len <= (if c0.ctl then 12 else 16)
    requires var c, pdu, h := Head(c0, p), w.log[j].use.pdu, ParseHead(p);
             var n := SegCount(|pdu|, c.ctl);
             && Belongs(c, w.log[j]) && c.ctl == c0.ctl && pdu != [] && k < n && h.sego == k && h.segn == n - 1
             && Payload(p, len, c.ctl, k, n - 1) == SegData(pdu, c.ctl, k) && Expecting(pool, w.log[j].use.ctx, n, held)
    ensures var m, n := w.log[j].use.ctx, SegCount(|w.log[j].use.pdu|, c0.ctl);
            && TakesUsableSlot(pool, Head(c0, p), n)
            && var r := Receive(pool, c0, p, len, true);
               && Expecting(r.pool, m, n, held + {k})
               && (held + {k} == Bits(n) ==> r.ack.Some? && KeyOf(r.ack.value.ctx) == KeyOf(m) && r.ack.value.block == Bits(n))
  {
    hide *;
    var c, m, n := Head(c0, p), w.log[j].use.ctx, SegCount(|w.log[j].use.pdu|, c0.ctl);
    SameKeyParts(c, w.log[j]);
    SlotOfArrival(w, ds, pool, c, j, held);
    ReceiveSteps(pool, c0, p, len, true);
    ReceiveShaped(pool, c0, p, len, true);
    var req := Request(pool, c, n);
    SlotTakesSegment(ds, req.pool, req.slot.value, c, w.log[j], k);
    var r := Receive(pool, c0, p, len, true);
    SameKeySameAuth(r.pool.tasks[req.slot.value].ctx, m);
    ActiveIsExpecting(r.pool, req.slot.value, m, n);
  }

  /** A segment of message m arrives where it is expected: the slot then holds it too, and once it holds all of
      them the answer acknowledges all of them. */
  lemma ArrivalProgress(w: Sender, ds: set<Delivery>, pool: RxPool, p: seq<byte>, len: nat, d: Draw, j: nat, k: nat, held: set<nat>)
    requires PoolGood(w, ds, pool) && Numbering(w) && j < |w.log| && Reassembly.Arrives(p, len, d, w.log[j], k)
    requires w.log[j].sqn < SEQ_MAX && Own(w, d.src)
    requires Expecting(pool, w.log[j].use.ctx, SegCount(|w.log[j].use.pdu|, w.log[j].use.ctx.ctl), held)
    ensures var m, n := w.log[j].use.ctx, SegCount(|w.log[j].use.pdu|, w.log[j].use.ctx.ctl);
            && 4 <= len <= (if d.use.ctx.ctl then 12 else 16)
            && TakesUsableSlot(pool, Head(NetCtx(d.use.ctx), p), ParseHead(p).segn + 1)
            && var r := Receive(pool, NetCtx(d.use.ctx), p, len, true);
               && Expecting(r.pool, m, n, held + {k})
               && (held + {k} == Bits(n) ==> r.ack.Some? && KeyOf(r.ack.value.ctx) == KeyOf(m) && r.ack.value.block == Bits(n))
  {
    hide ParseHead, Payload, SegData, SegPdu, SegCount, Expecting, Receive, TakesUsableSlot, Bits, TaskOk, NoReuse;
    assert DrawOk(w.log, w.log[j]);
    ArrivedHead(p, len, d, w.log[j], k, w.log);
    SameKeyParts(Head(NetCtx(d.use.ctx), p), w.log[j]);
    ProgressAtSlot(w, ds, pool, p, len, NetCtx(d.use.ctx), j, k, held);
  }

  // ---------- the network ----------

  function MsgOf(s: Net, j: nat): MsgCtx
    requires j < |s.n.log| && s.n.log[j].use.Message?
  {
    s.n.log[j].use.ctx
  }

  function CountOf(s: Net, j: nat): nat
    requires j < |s.n.log| && s.n.log[j].use.Message?
  {
    SegCount(|s.n.log[j].use.pdu|, s.n.log[j].use.ctx.ctl)
  }

  ghost predicate FullyAcked(s: Net, j: nat)
    requires j < |s.n.log| && s.n.log[j].use.Message?
  {
    exists a :: a in s.acks && KeyOf(a.ctx) == KeyOf(MsgOf(s, j)) && a.block == Bits(CountOf(s, j))
  }

  /** All segments of message j are on the air. */
  ghost predicate OnTheAir(s: Net, j: nat) {
    Inv(s) && AllSent(s.n.log, j) && OwnSource(s.n, s.n.log[j].src) && forall i :: 0 <= i < |s.n.log| ==> s.n.log[i].sqn < SEQ_MAX
  }

  /** Its destination holds the segments in held, and has acknowledged them if they are all. */
  ghost predicate Holding(s: Net, j: nat, held: set<nat>)
    requires j < |s.n.log| && s.n.log[j].use.Message?
  {
    && MsgOf(s, j).dst in s.rx && (MsgOf(s, j).ctl ==> MsgOf(s, j).opcode != 0)
    && PoolOk(s.rx[MsgOf(s, j).dst]) && Expecting(s.rx[MsgOf(s, j).dst], MsgOf(s, j), CountOf(s, j), held)
    && (held == Bits(CountOf(s, j)) ==> FullyAcked(s, j))
  }

  ghost predicate Underway(s: Net, j: nat, held: set<nat>) { OnTheAir(s, j) && Holding(s, j, held) }

  /** What lies behind each segment in the receiver's buffer. */
  type Tails = nat -> seq<byte>

  ghost predicate TailsFit(tail: Tails, pdu: seq<byte>, ctl: bool) {
    forall k :: 0 <= k < SegCount(|pdu|, ctl) ==> |SegData(pdu, ctl, k)| + |tail(k)| == 16
  }

  /** Segment k of the message of draw j arrives. */
  function ArrivalOf(j: nat, k: nat, tail: Tails): Event { SegmentArrives(j + 1 + k, tail(k), true) }

  /** What segment k looks like when it arrives. */
  lemma ArrivingFrame(s: Net, j: nat, k: nat, tail: Tails)
    requires OnTheAir(s, j) && k < CountOf(s, j) && TailsFit(tail, s.n.log[j].use.pdu, MsgOf(s, j).ctl)
    ensures j + 1 + k < |s.n.log|
    ensures var d, v := s.n.log[j + 1 + k], ArrivalOf(j, k, tail);
            && d.use.OnAir? && v == SegmentArrives(j + 1 + k, v.rest, true) && d.use.ctx == MsgOf(s, j).(sqn := d.sqn)
            && Reassembly.Arrives(d.use.frame + v.rest, |d.use.frame|, d, s.n.log[j], k) && Own(Sender0(s.n), d.src)
  {
    SegDataLen(s.n.log[j].use.pdu, MsgOf(s, j).ctl, k);
    assert SentAt(s.n.log, j, k);
    var d, v := s.n.log[j + 1 + k], ArrivalOf(j, k, tail);
    hide SegData, SegCount, Inv;
    assert (d.use.frame + v.rest)[..|d.use.frame|] == d.use.frame;
  }

  /** Segment k is on the air with its destination listening. */
  ghost predicate Arrivable(s: Net, j: nat, k: nat, tail: Tails) {
    && NodeOk(s.n) && j < |s.n.log| && s.n.log[j].use.Message? && k < CountOf(s, j)
    && MsgOf(s, j).dst in s.rx && (MsgOf(s, j).ctl ==> MsgOf(s, j).opcode != 0) && PoolOk(s.rx[MsgOf(s, j).dst])
    && j + 1 + k < |s.n.log| && s.n.log[j + 1 + k].use.OnAir?
    && var v, d := ArrivalOf(j, k, tail), s.n.log[j + 1 + k].use;
       && v == SegmentArrives(j + 1 + k, v.rest, true) && |d.frame + v.rest| == 20 && 4 <= |d.frame| <= (if d.ctx.ctl then 12 else 16)
       && d.ctx == MsgOf(s, j).(sqn := d.ctx.sqn) && d.ctx.seg
  }

  function BufferOf(s: Net, j: nat, k: nat, tail: Tails): seq<byte>
    requires Arrivable(s, j, k, tail)
  {
    s.n.log[j + 1 + k].use.frame + ArrivalOf(j, k, tail).rest
  }

  /** What its arrival does at the destination. */
  ghost predicate Progress(s: Net, j: nat, k: nat, held: set<nat>, tail: Tails)
    requires Arrivable(s, j, k, tail)
  {
    var d, p, f := s.n.log[j + 1 + k].use, s.rx[MsgOf(s, j).dst], BufferOf(s, j, k, tail);
    && TakesUsableSlot(p, Head(NetCtx(d.ctx), f), ParseHead(f).segn + 1)
    && var r := Receive(p, NetCtx(d.ctx), f, |d.frame|, true);
       && Expecting(r.pool, MsgOf(s, j), CountOf(s, j), held + {k})
       && (held + {k} == Bits(CountOf(s, j)) ==>
             r.ack.Some? && KeyOf(r.ack.value.ctx) == KeyOf(MsgOf(s, j)) && r.ack.value.block == Bits(CountOf(s, j)))
  }

  lemma UnderwayArrives(s: Net, j: nat, k: nat, held: set<nat>, tail: Tails)
    requires Underway(s, j, held) && k < CountOf(s, j) && TailsFit(tail, s.n.log[j].use.pdu, MsgOf(s, j).ctl)
    ensures Arrivable(s, j, k, tail)
  {
    hide ArrivalOf, Expecting, PoolGood, SegCount, Bits, SentAt, AllSent;
    ArrivingFrame(s, j, k, tail);
    var d, v := s.n.log[j + 1 + k], ArrivalOf(j, k, tail);
    NumberingOfNode(s.n);
    ArrivalProgress(Sender0(s.n), s.delivered, s.rx[MsgOf(s, j).dst], d.use.frame + v.rest, |d.use.frame|, d, j, k, held);
    assert DrawOk(s.n.log, s.n.log[j]);
  }

  lemma UnderwayProgress(s: Net, j: nat, k: nat, held: set<nat>, tail: Tails)
    requires Underway(s, j, held) && Arrivable(s, j, k, tail) && TailsFit(tail, s.n.log[j].use.pdu, MsgOf(s, j).ctl)
    ensures Progress(s, j, k, held, tail)
  {
    hide ArrivalOf, Expecting, Receive, PoolGood, ParseHead, SegCount, Bits, SentAt, TakesUsableSlot;
    ArrivingFrame(s, j, k, tail);
    var d, v := s.n.log[j + 1 + k], ArrivalOf(j, k, tail);
    NumberingOfNode(s.n);
    ArrivalProgress(Sender0(s.n), s.delivered, s.rx[MsgOf(s, j).dst], d.use.frame + v.rest, |d.use.frame|, d, j, k, held);
  }

  lemma PossibleArrival(s: Net, j: nat, k: nat, tail: Tails)
    requires Arrivable(s, j, k, tail)
    ensures Possible(s, ArrivalOf(j, k, tail))
  {
    hide ArrivalOf, SegCount;
  }

  lemma FairArrival(s: Net, j: nat, k: nat, held: set<nat>, tail: Tails)
    requires Arrivable(s, j, k, tail) && Progress(s, j, k, held, tail) && Possible(s, ArrivalOf(j, k, tail))
    requires forall i :: 0 <= i < |s.n.log| ==> s.n.log[i].sqn < SEQ_MAX
    ensures Fair(s, ArrivalOf(j, k, tail))
  {
    hide ArrivalOf, Expecting, Receive, ParseHead, SegCount, Bits, TakesUsableSlot;
  }

  lemma HoldingMore(s: Net, j: nat, k: nat, held: set<nat>, tail: Tails)
    requires Arrivable(s, j, k, tail) && Progress(s, j, k, held, tail)
    requires IvValid(s.n.iv) && Possible(s, ArrivalOf(j, k, tail))
    ensures var u := NextNet(s, ArrivalOf(j, k, tail));
            u.n == s.n && Holding(u, j, held + {k})
  {
    hide ArrivalOf, Expecting, Receive, ParseHead, SegCount, Bits, TakesUsableSlot, Possible;
  }

  lemma StepArrives(s: Net, j: nat, k: nat, held: set<nat>, tail: Tails)
    requires Underway(s, j, held) && k < CountOf(s, j) && TailsFit(tail, s.n.log[j].use.pdu, MsgOf(s, j).ctl)
    ensures var v := ArrivalOf(j, k, tail);
            Possible(s, v) && Fair(s, v) && NextNet(s, v).n == s.n && Underway(NextNet(s, v), j, held + {k})
  {
    UnderwayFacts(s, j, held);
    UnderwayArrives(s, j, k, held, tail);
    UnderwayProgress(s, j, k, held, tail);
    PossibleArrival(s, j, k, tail);
    FairArrival(s, j, k, held, tail);
    HoldingMore(s, j, k, held, tail);
    hide ArrivalOf, Arrivable, Progress, Holding, NextNet, Fair, Possible, Inv, AllSent, SegCount;
    EventKeeps(s, ArrivalOf(j, k, tail));
  }

  // ---------- the run ----------

  /** The segments named by order arrive one after the other. */
  function Arrivals(j: nat, order: seq<nat>, tail: Tails): seq<Event> {
    if order == [] then [] else [ArrivalOf(j, order[0], tail)] + Arrivals(j, order[1..], tail)
  }

  /** The sender has ended the message as fully acknowledged, and the receiver has handed it up. */
  ghost predicate Completed(s: Net, k: Key, pdu: seq<byte>) { k in s.done && HasDelivered(s.delivered, k, pdu) }

  ghost predicate RunCompletes(s: Net, vs: seq<Event>, k: Key, pdu: seq<byte>) {
    NodeOk(s.n) && IvValid(s.n.iv) && FairRun(s, vs) && Completed(RunNet(s, vs), k, pdu)
  }

  /** Message j is the sender's only active task. */
  ghost predicate OnlyTask(n: Node, j: nat, t: nat) {
    && j < |n.log| && n.log[j].use.Message? && n.active == [t] && t < |n.tasks|
    && n.tasks[t].segBits == Bits(SegCount(|n.log[j].use.pdu|, n.log[j].use.ctx.ctl))
    && KeyOf(n.tasks[t].ctx) == KeyOf(n.log[j].use.ctx)
  }

  lemma RunCons(s: Net, v: Event, vs: seq<Event>, k: Key, pdu: seq<byte>)
    requires NodeOk(s.n) && IvValid(s.n.iv) && Possible(s, v) && Fair(s, v) && RunCompletes(NextNet(s, v), vs, k, pdu)
    ensures RunCompletes(s, [v] + vs, k, pdu)
  {
    hide Possible, Fair, NextNet, Completed, NodeOk, IvValid;
    assert ([v] + vs)[0] == v && ([v] + vs)[1..] == vs;
  }

  lemma FullyAckedIsDelivered(s: Net, j: nat, a: Ack)
    requires OnTheAir(s, j) && a in s.acks && KeyOf(a.ctx) == KeyOf(MsgOf(s, j)) && a.block == Bits(CountOf(s, j))
    ensures HasDelivered(s.delivered, KeyOf(MsgOf(s, j)), s.n.log[j].use.pdu)
  {
    hide Sched, PoolGood, Faithful, Finished, SentAt, Bits;
    assert AckOk(Sender0(s.n), s.delivered, a);
    assert DrawOk(s.n.log, s.n.log[j]);
    var i :| 0 <= i < |s.n.log| && Belongs(a.ctx, s.n.log[i])
             && (a.block == Bits(SegCount(|s.n.log[i].use.pdu|, a.ctx.ctl)) ==>
                   HasDelivered(s.delivered, KeyOf(a.ctx), s.n.log[i].use.pdu));
    assert DrawOk(s.n.log, s.n.log[i]);
    assert SameNonce(s.n.log[i], s.n.log[j]) && SameNonce(s.n.log[j], s.n.log[i]);
  }

  /** A full acknowledgement comes back. */
  lemma AckCompletes(s: Net, j: nat, t: nat) returns (a: Ack)
    requires OnTheAir(s, j) && FullyAcked(s, j) && OnlyTask(s.n, j, t)
    ensures RunCompletes(s, [AckReturns(a)] + [], KeyOf(MsgOf(s, j)), s.n.log[j].use.pdu)
    ensures KeyOf(a.ctx) == KeyOf(MsgOf(s, j)) && a.block == Bits(CountOf(s, j))
  {
    a :| a in s.acks && KeyOf(a.ctx) == KeyOf(MsgOf(s, j)) && a.block == Bits(CountOf(s, j));
    FullyAckedIsDelivered(s, j, a);
    AckFair(s, j, t, a);
    EventKeeps(s, AckReturns(a));
    InvFacts(NextNet(s, AckReturns(a)));
    AckEndsTask(s, j, t, a);
    InvFacts(s);
    var u, k, pdu := NextNet(s, AckReturns(a)), KeyOf(MsgOf(s, j)), s.n.log[j].use.pdu;
    hide *;
    NothingMore(s, u, k, pdu);
    RunCons(s, AckReturns(a), [], KeyOf(MsgOf(s, j)), s.n.log[j].use.pdu);
  }

  lemma NothingMore(s: Net, u: Net, k: Key, pdu: seq<byte>)
    requires NodeOk(u.n) && IvValid(u.n.iv) && k in u.done && HasDelivered(s.delivered, k, pdu) && u.delivered == s.delivered
    ensures RunCompletes(u, [], k, pdu)
  {
  }

  lemma InvFacts(s: Net)
    requires Inv(s)
    ensures NodeOk(s.n) && IvValid(s.n.iv)
  {
  }

  lemma AckEndsTask(s: Net, j: nat, t: nat, a: Ack)
    requires NodeOk(s.n) && IvValid(s.n.iv) && OnlyTask(s.n, j, t) && Possible(s, AckReturns(a))
    requires KeyOf(a.ctx) == KeyOf(MsgOf(s, j)) && a.block == Bits(CountOf(s, j))
    ensures var u := NextNet(s, AckReturns(a)); KeyOf(MsgOf(s, j)) in u.done && u.delivered == s.delivered
  {
    hide Bits, SegCount, ReceiveAck;
    OneActive(s.n, SeqZero(a.ctx.seqAuth));
  }

  lemma AckFair(s: Net, j: nat, t: nat, a: Ack)
    requires OnTheAir(s, j) && OnlyTask(s.n, j, t) && a in s.acks && KeyOf(a.ctx) == KeyOf(MsgOf(s, j))
    ensures Possible(s, AckReturns(a)) && Fair(s, AckReturns(a))
  {
    hide RxInv, Fresh, Partition, WaitsOr, DistinctDst, Finished, AllSent;
    OneActive(s.n, SeqZero(a.ctx.seqAuth));
    assert DrawOk(s.n.log, s.n.log[j]);
  }

  lemma ElemsOfFirst(order: seq<nat>)
    requires order != []
    ensures Elems(order) == {order[0]} + Elems(order[1..])
  {
  }

  lemma {:induction false} ArrivalsComplete(s: Net, j: nat, order: seq<nat>, tail: Tails, held: set<nat>, t: nat) returns (a: Ack)
    requires Underway(s, j, held) && OnlyTask(s.n, j, t) && forall i :: 0 <= i < |order| ==> order[i] < CountOf(s, j)
    requires held + Elems(order) == Bits(CountOf(s, j)) && TailsFit(tail, s.n.log[j].use.pdu, MsgOf(s, j).ctl)
    ensures var pdu := s.n.log[j].use.pdu;
            RunCompletes(s, Arrivals(j, order, tail) + [AckReturns(a)], KeyOf(MsgOf(s, j)), pdu)
    ensures KeyOf(a.ctx) == KeyOf(MsgOf(s, j)) && a.block == Bits(CountOf(s, j))
    decreases |order|
  {
    hide Underway, OnlyTask, Possible, Fair, NextNet, Elems, ArrivalOf, RunCompletes, SegCount, NodeOk, IvValid, Bits, Inv, OnTheAir;
    UnderwayFacts(s, j, held);
    if order == [] {
      ElemsOfNone();
      assert held == Bits(CountOf(s, j));
      a := AckCompletes(s, j, t);
      assert Arrivals(j, order, tail) + [AckReturns(a)] == [AckReturns(a)] + [];
    } else {
      var pdu := s.n.log[j].use.pdu;
      StepArrives(s, j, order[0], held, tail);
      ElemsOfFirst(order);
      var v := ArrivalOf(j, order[0], tail);
      a := ArrivalsComplete(NextNet(s, v), j, order[1..], tail, held + {order[0]}, t);
      var vs := Arrivals(j, order[1..], tail) + [AckReturns(a)];
      RunCons(s, v, vs, KeyOf(MsgOf(s, j)), pdu);
      assert Arrivals(j, order, tail) + [AckReturns(a)] == [v] + vs;
    }
  }

  lemma UnderwayFacts(s: Net, j: nat, held: set<nat>)
    requires Underway(s, j, held)
    ensures NodeOk(s.n) && IvValid(s.n.iv) && OnTheAir(s, j) && j < |s.n.log| && s.n.log[j].use.Message?
    ensures held == Bits(CountOf(s, j)) ==> FullyAcked(s, j)
  {
  }

  lemma ElemsOfNone()
    ensures Elems([]) == {}
  {
  }

  lemma EventExtends(s: Net, v: Event)
    requires Inv(s) && Possible(s, v) && Fair(s, v)
    ensures Extends(s.n, NextNet(s, v).n)
  {
    match v
    case Local(e) => DoGood(s.n, e);
    case AckReturns(a) => ReceiveAckGood(s.n, SeqZero(a.ctx.seqAuth), a.block);
    case _ =>
  }

  lemma {:induction false} RunExtends(s: Net, vs: seq<Event>)
    requires Inv(s) && FairRun(s, vs)
    ensures Extends(s.n, RunNet(s, vs).n)
    decreases |vs|
  {
    hide NextNet, Inv, Possible, Fair, NodeOk, IvValid;
    InvFacts(s);
    if vs != [] {
      EventKeeps(s, vs[0]);
      EventExtends(s, vs[0]);
      RunExtends(NextNet(s, vs[0]), vs[1..]);
    }
  }

  /** The sender has nothing else to do, numbers to spare, and the receiver a usable slot for this source. */
  ghost predicate ClearWay(s: Net, c: MsgCtx, pdu: seq<byte>) {
    && s.n.active == [] && Unhindered(s.n, c, pdu) && Roomy(s.n, c, pdu) && Enabled(s.n, Send(c, pdu)) && Dutiful(s.n, Send(c, pdu))
    && (c.ctl ==> c.opcode != 0)
    && c.dst in s.rx && PoolOk(s.rx[c.dst])
    && Expecting(s.rx[c.dst], WithNumber(s.n, c).(seg := true), SegCount(|pdu|, c.ctl), {})
  }

  /** A pool that resets its slots expects every new message it has a slot for. */
  lemma ResetIsExpecting(p: RxPool, c: MsgCtx, count: nat)
    requires PoolOk(p) && p.reset && Request(p, c, count).taken && Request(p, c, count).slot.Some?
    ensures Expecting(p, c, count, {})
  {
    ResetIsUsable(p, c, count);
    TakenIsRefilled(p, c, count);
  }

  lemma SentNode(n: Node, c: MsgCtx, pdu: seq<byte>)
    requires NodeInv(n) && n.active == [] && Unhindered(n, c, pdu) && Roomy(n, c, pdu)
    ensures var r, j := SendMessage(n, c, pdu), |n.log|;
            && AllSent(r.log, j) && (forall i :: 0 <= i < |r.log| ==> r.log[i].sqn < SEQ_MAX) && OnlyTask(r, j, n.idle[0])
            && r.log[j].use == SeqAuthUse(WithNumber(n, c).(seg := true), pdu) && r.log[j].src == c.src && OwnSource(r, c.src)
  {
    MessageDrawn(n, c, pdu);
    MessageSent(n, c, pdu);
    SendActivates(n, c, pdu);
    hide SendMessage, AllSent, SegDraws, SegCount, Bits;
    SendMessageKeepsSources(n, c, pdu);
  }

  lemma SendMessageKeepsSources(n: Node, c: MsgCtx, pdu: seq<byte>)
    requires Unhindered(n, c, pdu) && CountersOk(n)
    ensures OwnSource(SendMessage(n, c, pdu), c.src)
  {
    StartedSends(n, c, pdu);
    hide SendMessage;
  }

  lemma SentIsUnderway(s: Net, c: MsgCtx, pdu: seq<byte>)
    requires Inv(s) && ClearWay(s, c, pdu)
    ensures NodeOk(s.n) && IvValid(s.n.iv) && s.n.idle != [] && Possible(s, Local(Send(c, pdu))) && Fair(s, Local(Send(c, pdu)))
    ensures var u, j := NextNet(s, Local(Send(c, pdu))), |s.n.log|;
            && Underway(u, j, {}) && OnlyTask(u.n, j, s.n.idle[0]) && u.n.log[j].use.pdu == pdu
            && u.n.log[j].use == SeqAuthUse(WithNumber(s.n, c).(seg := true), pdu)
  {
    SentNode(s.n, c, pdu);
    InvFacts(s);
    SendIsNext(s, c, pdu);
    SendIsFair(s, c, pdu);
    EventKeeps(s, Local(Send(c, pdu)));
    var u := NextNet(s, Local(Send(c, pdu)));
    assert s.n.idle != [] && pdu != [] && Roomy(s.n, c, pdu) by { hide Expecting; }
    hide *;
    JustSent(s, u, c, pdu);
  }

  lemma JustSent(s: Net, u: Net, c: MsgCtx, pdu: seq<byte>)
    requires Inv(u) && ClearWay(s, c, pdu) && u == s.(n := u.n) && AllSent(u.n.log, |s.n.log|) && pdu != []
    requires (forall i :: 0 <= i < |u.n.log| ==> u.n.log[i].sqn < SEQ_MAX) && OwnSource(u.n, u.n.log[|s.n.log|].src)
    requires u.n.log[|s.n.log|].use == SeqAuthUse(WithNumber(s.n, c).(seg := true), pdu)
    ensures Underway(u, |s.n.log|, {})
  {
    var j := |s.n.log|;
    assert 0 in Bits(SegCount(|pdu|, c.ctl));
    hide Inv, AllSent, Expecting, SegCount, Bits, Unhindered, Roomy, Enabled, Dutiful;
    SameExpecting(s.rx[c.dst], WithNumber(s.n, c).(seg := true), MsgOf(u, j), SegCount(|pdu|, c.ctl), {});
    assert OnTheAir(u, j) && Holding(u, j, {});
  }

  lemma SendIsFair(s: Net, c: MsgCtx, pdu: seq<byte>)
    requires NodeOk(s.n) && IvValid(s.n.iv) && ClearWay(s, c, pdu) && Possible(s, Local(Send(c, pdu)))
    ensures Fair(s, Local(Send(c, pdu)))
  {
    hide Expecting;
  }

  lemma SentCompletes(s: Net, c: MsgCtx, pdu: seq<byte>, order: seq<nat>, tail: Tails) returns (a: Ack)
    requires Inv(s) && ClearWay(s, c, pdu) && TailsFit(tail, pdu, c.ctl)
    requires (forall i :: 0 <= i < |order| ==> order[i] < SegCount(|pdu|, c.ctl)) && Elems(order) == Bits(SegCount(|pdu|, c.ctl))
    ensures IvValid(s.n.iv)
    ensures RunCompletes(s, [Local(Send(c, pdu))] + (Arrivals(|s.n.log|, order, tail) + [AckReturns(a)]),
                         KeyOf(WithNumber(s.n, c)), pdu)
    ensures KeyOf(a.ctx) == KeyOf(WithNumber(s.n, c)) && a.block == Bits(SegCount(|pdu|, c.ctl))
  {
    hide Underway, OnlyTask, Inv, ClearWay, Possible, Fair, NextNet, Elems, RunCompletes, SegCount, NodeOk, IvValid, Bits, Arrivals;
    SentIsUnderway(s, c, pdu);
    var v, j := Local(Send(c, pdu)), |s.n.log|;
    UnderwayFacts(NextNet(s, v), j, {});
    a := ArrivalsComplete(NextNet(s, v), j, order, tail, {}, s.n.idle[0]);
    RunCons(s, v, Arrivals(j, order, tail) + [AckReturns(a)], KeyOf(WithNumber(s.n, c)), pdu);
  }

  /** From every state a run can reach: send a segmented message, let its segments arrive in any order, each at
      least once and as often as the network likes; then some acknowledgement on its way back ends the message at
      the sender, and the receiver has handed it up. */
  lemma ArrivedMeansCompleted(s: Net, c: MsgCtx, pdu: seq<byte>, order: seq<nat>, tail: Tails)
    requires Inv(s) && ClearWay(s, c, pdu) && TailsFit(tail, pdu, c.ctl)
    requires (forall i :: 0 <= i < |order| ==> order[i] < SegCount(|pdu|, c.ctl)) && Elems(order) == Bits(SegCount(|pdu|, c.ctl))
    ensures exists a :: RunCompletes(s, [Local(Send(c, pdu))] + (Arrivals(|s.n.log|, order, tail) + [AckReturns(a)]),
                                     KeyOf(WithNumber(s.n, c)), pdu)
  {
    hide *;
    var a := SentCompletes(s, c, pdu, order, tail);
  }

  /** However the run goes on, the message stays in the sender's log. */
  lemma SentStaysLogged(s: Net, c: MsgCtx, pdu: seq<byte>, vs: seq<Event>)
    requires Inv(s) && ClearWay(s, c, pdu) && NodeOk(s.n) && IvValid(s.n.iv) && FairRun(s, [Local(Send(c, pdu))] + vs)
    ensures var u, j := RunNet(s, [Local(Send(c, pdu))] + vs), |s.n.log|;
            && Inv(u) && j < |u.n.log| && u.n.log[j].use == SeqAuthUse(WithNumber(s.n, c).(seg := true), pdu)
            && u.n.log[j].sqn < SEQ_MAX && OwnSource(u.n, u.n.log[j].src)
  {
    hide Inv, ClearWay, NextNet, Possible, Fair, NodeOk, IvValid, Holding, AllSent;
    var v, j := Local(Send(c, pdu)), |s.n.log|;
    SentIsUnderway(s, c, pdu);
    assert ([v] + vs)[0] == v && ([v] + vs)[1..] == vs;
    RunKeeps(s, [v] + vs);
    RunExtends(NextNet(s, v), vs);
  }

  /** Nothing has happened yet; the receiver's first slot is as the memset at initialisation leaves it. The caller of a
      control message will take the first number for it. */
  predicate AtStart(s: Net, c: MsgCtx, pdu: seq<byte>) {
    && Start(s) && s.n.tasks != [] && OwnSource(s.n, c.src) && c.iv == s.n.iv.index && Fits(c) && pdu != [] && IsValidAddress(c.dst)
    && NeedsSegments(c, |pdu|) && SegCount(|pdu|, c.ctl) <= MAX_SEGMENTS && (c.ctl ==> c.opcode != 0)
    && (c.ctl ==> c.seqAuth == 0)
    && c.dst in s.rx && s.rx[c.dst].tasks != [] && s.rx[c.dst].tasks[0].pduLen == 0 && s.rx[c.dst].tasks[0].notReceived == {}
  }

  /** The number of a control message is taken before it is sent. */
  function Before(c: MsgCtx): seq<Event> { if c.ctl then [Local(TakeNumber(c.src))] else [] }

  function Readied(s: Net, c: MsgCtx): Net { if c.ctl then s.(n := Taken(s.n, c.src)) else s }

  lemma StartIsClear(s: Net, c: MsgCtx, pdu: seq<byte>)
    requires AtStart(s, c, pdu)
    ensures Start(s) && NodeOk(s.n) && IvValid(s.n.iv)
    ensures var u := Readied(s, c); Inv(u) && NodeOk(u.n) && IvValid(u.n.iv) && ClearWay(u, c, pdu) && u.n.log == []
    ensures c.ctl ==> var v := Local(TakeNumber(c.src)); Possible(s, v) && Fair(s, v) && NextNet(s, v) == Readied(s, c)
  {
    StartInv(s);
    InvFacts(s);
    if c.ctl { TakenKeeps(s, c.src); }
    hide Inv;
  }

  lemma TakenKeeps(s: Net, src: nat)
    requires Inv(s) && OwnSource(s.n, src)
    ensures Inv(s.(n := Taken(s.n, src)))
  {
    LocalKeeps(s, TakeNumber(src));
  }

  lemma ReadiedRuns(s: Net, c: MsgCtx, vs: seq<Event>, k: Key, pdu: seq<byte>)
    requires NodeOk(s.n) && IvValid(s.n.iv) && RunCompletes(Readied(s, c), vs, k, pdu)
    requires c.ctl ==> var v := Local(TakeNumber(c.src)); Possible(s, v) && Fair(s, v) && NextNet(s, v) == Readied(s, c)
    ensures RunCompletes(s, Before(c) + vs, k, pdu)
  {
    hide RunCompletes, Possible, Fair, NextNet, NodeOk, IvValid;
    if c.ctl {
      RunCons(s, Local(TakeNumber(c.src)), vs, k, pdu);
    } else {
      assert Before(c) + vs == vs;
    }
  }

  lemma InOrder(n: nat)
    ensures Elems(Range(n)) == Bits(n) && forall i :: 0 <= i < |Range(n)| ==> Range(n)[i] < n
  {
    forall x | x in Bits(n) ensures x in Elems(Range(n)) { assert Range(n)[x] == x; }
  }

  function ZeroTail(pdu: seq<byte>, ctl: bool, k: nat): seq<byte> {
    if k < SegCount(|pdu|, ctl) && |SegData(pdu, ctl, k)| <= 16 then ZERO_BLOCK[|SegData(pdu, ctl, k)|..] else []
  }

  lemma ZeroTails(pdu: seq<byte>, ctl: bool) returns (tail: Tails)
    ensures TailsFit(tail, pdu, ctl)
  {
    tail := k => ZeroTail(pdu, ctl, k);
    forall k | 0 <= k < SegCount(|pdu|, ctl) ensures |SegData(pdu, ctl, k)| + |tail(k)| == 16 { SegDataLen(pdu, ctl, k); }
  }

  /** A freshly started network is such a state: its first message gets through. */
  lemma FirstMessageGetsThrough(s: Net, c: MsgCtx, pdu: seq<byte>)
    requires AtStart(s, c, pdu)
    ensures IvValid(s.n.iv) && exists vs, t :: Reached(s, vs, t) && Completed(t, KeyOf(WithNumber(s.n, c)), pdu)
  {
    hide Inv, ClearWay, Completed, SegCount, Start, AtStart, Range, Elems, NodeOk, IvValid, Bits, FairRun, RunNet, Arrivals, TailsFit;
    var order := Range(SegCount(|pdu|, c.ctl));
    StartIsClear(s, c, pdu);
    InOrder(SegCount(|pdu|, c.ctl));
    var tail := ZeroTails(pdu, c.ctl);
    var u := Readied(s, c);
    assert KeyOf(WithNumber(u.n, c)) == KeyOf(WithNumber(s.n, c));
    var a := SentCompletes(u, c, pdu, order, tail);
    var ws := [Local(Send(c, pdu))] + (Arrivals(|u.n.log|, order, tail) + [AckReturns(a)]);
    ReadiedRuns(s, c, ws, KeyOf(WithNumber(s.n, c)), pdu);
    var vs := Before(c) + ws;
    assert Reached(s, vs, RunNet(s, vs));
  }
}
