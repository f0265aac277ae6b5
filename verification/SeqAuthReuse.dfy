// Two segmented control messages under one SeqAuth: the receiver answers the second with the first one's
// acknowledgement, and the sender ends it as received although nobody was handed it.

module SeqAuthReuse {
  import opened Bytes
  import opened Mesh
  import opened Segments
  import opened IvIndex
  import opened TxNode
  import opened RxNode
  import opened Scheduler
  import opened Messages
  import opened RxPools
  import opened RxTight
  import opened Reassembly
  import opened SlotReuse
  import opened Transport
  import opened AckMatching
  import opened Bursts
  import opened Completion

  /** Message j has arrived at its destination completely. */
  ghost predicate Arrived(s: Net, j: nat) {
    && Inv(s) && j < |s.n.log| && s.n.log[j].use.Message? && s.n.log[j].sqn < SEQ_MAX && OwnSource(s.n, s.n.log[j].src)
    && MsgOf(s, j).dst in s.rx && PoolOk(s.rx[MsgOf(s, j).dst])
    && Expecting(s.rx[MsgOf(s, j).dst], MsgOf(s, j), CountOf(s, j), Bits(CountOf(s, j)))
  }

  /** The task of a complete message acknowledges everything that looks like one of its segments. */
  lemma FullSlotAnswers(w: Sender, ds: set<Delivery>, pool: RxPool, c0: MsgCtx, p: seq<byte>, len: nat, j: nat, replayOk: bool)
    requires PoolGood(w, ds, pool) && Numbering(w) && j < |w.log| && w.log[j].use.Message? && w.log[j].sqn < SEQ_MAX
    requires Own(w, w.log[j].src) && |p| == 20 && len <= (if c0.ctl then 12 else 16)
    requires var n := SegCount(|w.log[j].use.pdu|, c0.ctl);
             && Belongs(Head(c0, p), w.log[j]) && ParseHead(p).segn + 1 == n && Head(c0, p).ctl == c0.ctl
             && PoolOk(pool) && Expecting(pool, w.log[j].use.ctx, n, Bits(n))
    ensures var r := Receive(pool, c0, p, len, replayOk);
            && PoolOk(r.pool) && r.ack == Some(Ack(Head(c0, p), Bits(SegCount(|w.log[j].use.pdu|, c0.ctl)))) && r.delivered.None? && !r.fault
  {
    var c, n := Head(c0, p), SegCount(|w.log[j].use.pdu|, c0.ctl);
    hide *;
    SlotOfArrival(w, ds, pool, c, j, Bits(n));
    ReceiveSteps(pool, c0, p, len, replayOk);
    var req := Request(pool, c, n);
    SlotIsFull(req.pool.tasks[req.slot.value], w.log[j], ds, c);
    FullSlot(req.pool, req.slot.value, c, ParseHead(p).sego, ParseHead(p).segn, Payload(p, len, c.ctl, ParseHead(p).sego, ParseHead(p).segn), replayOk);
  }

  lemma SlotIsFull(t: RxTask, d: Draw, ds: set<Delivery>, c: MsgCtx)
    requires TaskOf(t, d, ds) && Belongs(c, d) && t.blockAck == Bits(SegCount(|d.use.pdu|, c.ctl))
    ensures Matches(t, c, SegCount(|d.use.pdu|, c.ctl)) && t.notReceived == {}
  {
    TaskMatches(t, c, d, ds);
    CompleteTask(t, t.ctx.ctl, d.use.pdu);
  }

  lemma FullSlot(p: RxPool, s: nat, c: MsgCtx, sego: nat, segn: nat, data: seq<byte>, replayOk: bool)
    requires PoolOk(p) && s < |p.tasks| && Matches(p.tasks[s], c, segn + 1) && p.tasks[s].notReceived == {}
    ensures AtSlot(p, s, c, sego, segn, data, replayOk) == RxOut(p, Some(Ack(c, p.tasks[s].blockAck)), None, false)
  {
  }

  // ---------- the second message ----------

  /** A different control message, of as many segments, under the key of message j, from a sender that has ended that
      one. */
  ghost predicate Again(s: Net, j: nat, c: MsgCtx, pdu: seq<byte>)
    requires j < |s.n.log| && s.n.log[j].use.Message?
  {
    && c.ctl && MsgOf(s, j).ctl && KeyOf(c) == KeyOf(MsgOf(s, j)) && c.opcode == MsgOf(s, j).opcode != 0
    && SegCount(|pdu|, true) == CountOf(s, j) && pdu != s.n.log[j].use.pdu
    && s.n.active == [] && Unhindered(s.n, c, pdu) && Roomy(s.n, c, pdu) && Enabled(s.n, Send(c, pdu))
  }

  /** The message is sent: its first segment is on the air, with nothing else in the way. */
  ghost predicate SentFirst(n: Node, c: MsgCtx, pdu: seq<byte>, r: Node) {
    var k := |n.log|;
    && Good(r) && Sched(r) && n.idle != [] && OnlyTask(r, k, n.idle[0])
    && k + 1 < |r.log| && r.log[k].use == SeqAuthUse(c.(seg := true), pdu) && r.log[k].sqn < SEQ_MAX
    && IsFrameOf(r.log[k + 1], r.log[k], 0) && r.log[k + 1].sqn <= SEQ_MAX && OwnSource(r, c.src)
  }

  lemma SendsFirst(n: Node, c: MsgCtx, pdu: seq<byte>)
    requires NodeInv(n) && c.ctl && n.active == [] && Unhindered(n, c, pdu) && Roomy(n, c, pdu) && Enabled(n, Send(c, pdu))
    ensures IvValid(n.iv) && SentFirst(n, c, pdu, Do(n, Send(c, pdu)))
  {
    DoGood(n, Send(c, pdu));
    DoSched(n, Send(c, pdu));
    assert Do(n, Send(c, pdu)) == SendMessage(n, c, pdu) by { hide SendMessage; }
    assert WithNumber(n, c) == c;
    assert 1 <= SegCount(|pdu|, c.ctl) && n.idle != [] && IvValid(n.iv) && NodeOk(n);
    hide *;
    SentNode(n, c, pdu);
    FirstSent(n, c, pdu, SendMessage(n, c, pdu));
  }

  lemma FirstSent(n: Node, c: MsgCtx, pdu: seq<byte>, r: Node)
    requires Good(r) && Sched(r) && n.idle != [] && OnlyTask(r, |n.log|, n.idle[0]) && AllSent(r.log, |n.log|) && OwnSource(r, c.src)
    requires r.log[|n.log|].use == SeqAuthUse(c.(seg := true), pdu) && 1 <= SegCount(|pdu|, c.ctl)
    requires forall i :: 0 <= i < |r.log| ==> r.log[i].sqn < SEQ_MAX
    ensures SentFirst(n, c, pdu, r)
  {
    hide Good, Sched, OnlyTask, IsFrameOf, SegCount;
    assert SentAt(r.log, |n.log|, 0);
  }

  // ---------- its first segment arrives ----------

  /** What the receiver reads from the segment. */
  ghost predicate FirstRead(r: Node, k: nat, rest: seq<byte>) {
    && k + 1 < |r.log| && r.log[k].use.Message? && r.log[k + 1].use.OnAir?
    && var d, m := r.log[k + 1].use, r.log[k];
       var p := d.frame + rest;
       && d.ctx == m.use.ctx.(sqn := d.ctx.sqn) && d.ctx.seg && |p| == 20 && 4 <= |d.frame| <= (if d.ctx.ctl then 12 else 16)
       && Belongs(Head(NetCtx(d.ctx), p), m) && Head(NetCtx(d.ctx), p).ctl == d.ctx.ctl == NetCtx(d.ctx).ctl
       && ParseHead(p).segn + 1 == SegCount(|m.use.pdu|, m.use.ctx.ctl)
  }

  lemma FirstArrives(r: Node, k: nat, rest: seq<byte>)
    requires Good(r) && k + 1 < |r.log| && r.log[k].use.Message? && IsFrameOf(r.log[k + 1], r.log[k], 0) && r.log[k + 1].sqn <= SEQ_MAX
    requires |rest| + |SegData(r.log[k].use.pdu, r.log[k].use.ctx.ctl, 0)| == 16
    ensures FirstRead(r, k, rest)
  {
    var d, m := r.log[k + 1], r.log[k];
    assert DrawOk(r.log, m);
    hide Good, SegData, SegCount;
    var p := d.use.frame + rest;
    assert p[..|d.use.frame|] == d.use.frame;
    ArrivedHead(p, |d.use.frame|, d, m, 0, r.log);
  }

  /** To the receiver the segment is one of message j. */
  ghost predicate Reads(s: Net, j: nat, c: MsgCtx, r: Node, rest: seq<byte>) {
    var k := |s.n.log| + 1;
    && NodeOk(r) && IvValid(r.iv) && k < |r.log| && r.log[k].use.OnAir? && j < |s.n.log| && s.n.log[j].use.Message?
    && var d := r.log[k].use;
       var p := d.frame + rest;
       && |p| == 20 && 4 <= |d.frame| <= 12 && d.ctx.ctl && d.ctx.seg && NetCtx(d.ctx).ctl && d.ctx.dst == c.dst && d.ctx.opcode != 0
       && var h := Head(NetCtx(d.ctx), p);
          h.ctl && Belongs(h, s.n.log[j]) && KeyOf(h) == KeyOf(c) && ParseHead(p).segn + 1 == CountOf(s, j)
  }

  lemma ReadsAsOld(s: Net, j: nat, c: MsgCtx, pdu: seq<byte>, r: Node, rest: seq<byte>)
    requires Arrived(s, j) && Again(s, j, c, pdu) && SentFirst(s.n, c, pdu, r) && |rest| + |SegData(pdu, true, 0)| == 16
    ensures Reads(s, j, c, r, rest)
  {
    ReadsFirst(s, j, c, pdu, r, rest);
    SentFacts(s, j, c, pdu, r);
    hide *;
    ReadsIs(s, j, c, pdu, r, rest);
  }

  lemma ReadsFirst(s: Net, j: nat, c: MsgCtx, pdu: seq<byte>, r: Node, rest: seq<byte>)
    requires Arrived(s, j) && Again(s, j, c, pdu) && SentFirst(s.n, c, pdu, r) && |rest| + |SegData(pdu, true, 0)| == 16
    ensures FirstRead(r, |s.n.log|, rest)
  {
    hide *;
    SentFacts(s, j, c, pdu, r);
    FirstArrives(r, |s.n.log|, rest);
  }

  lemma ReadsIs(s: Net, j: nat, c: MsgCtx, pdu: seq<byte>, r: Node, rest: seq<byte>)
    requires j < |s.n.log| && s.n.log[j].use.Message? && Again(s, j, c, pdu) && NodeOk(r) && IvValid(r.iv)
    requires FirstRead(r, |s.n.log|, rest) && r.log[|s.n.log|].use == SeqAuthUse(c.(seg := true), pdu)
    ensures Reads(s, j, c, r, rest)
  {
    var d := r.log[|s.n.log| + 1].use;
    hide Unhindered, Roomy, Enabled, SegCount, Belongs, Head, ParseHead;
    AlikeBelongs(s, j, c, pdu, r.log[|s.n.log|], Head(NetCtx(d.ctx), d.frame + rest));
  }

  /** The receiver's answer to it names every segment, and nothing is handed up. */
  ghost predicate Answered(s: Net, c: MsgCtx, pdu: seq<byte>, r: Node, rest: seq<byte>) {
    var u, v := s.(n := r), SegmentArrives(|s.n.log| + 1, rest, true);
    && NodeOk(r) && IvValid(r.iv) && Possible(u, v)
    && var t := NextNet(u, v);
       && t.n == r && t.delivered == s.delivered
       && exists a :: a in t.acks && KeyOf(a.ctx) == KeyOf(c) && a.block == Bits(SegCount(|pdu|, true))
  }

  lemma AnsweredInFull(s: Net, j: nat, c: MsgCtx, pdu: seq<byte>, r: Node, rest: seq<byte>)
    requires Arrived(s, j) && Again(s, j, c, pdu) && SentFirst(s.n, c, pdu, r) && |rest| + |SegData(pdu, true, 0)| == 16
    ensures Answered(s, c, pdu, r, rest)
  {
    var w, p := Sender0(s.n), s.rx[c.dst];
    ReadsAsOld(s, j, c, pdu, r, rest);
    SentFacts(s, j, c, pdu, r);
    PoolIsGood(s, j);
    assert CountOf(s, j) == SegCount(|pdu|, true) && CountOf(s, j) == SegCount(|w.log[j].use.pdu|, true);
    hide *;
    var d := r.log[|s.n.log| + 1].use;
    var h := Head(NetCtx(d.ctx), d.frame + rest);
    FullSlotAnswers(w, s.delivered, p, NetCtx(d.ctx), d.frame + rest, |d.frame|, j, true);
    AnswerReturns(s, c, pdu, r, rest, Receive(p, NetCtx(d.ctx), d.frame + rest, |d.frame|, true), Ack(h, Bits(SegCount(|pdu|, true))));
  }

  lemma SentFacts(s: Net, j: nat, c: MsgCtx, pdu: seq<byte>, r: Node)
    requires Arrived(s, j) && Again(s, j, c, pdu) && SentFirst(s.n, c, pdu, r)
    ensures var k, w := |s.n.log|, Sender0(s.n);
            && NodeOk(r) && IvValid(r.iv) && Good(r) && k + 1 < |r.log| && r.log[k].use == SeqAuthUse(c.(seg := true), pdu)
            && r.log[k].use.Message? && r.log[k].use.pdu == pdu && r.log[k].use.ctx.ctl && r.log[k].use.ctx.opcode == c.opcode != 0 && r.log[k].use.ctx.dst == c.dst
            && IsFrameOf(r.log[k + 1], r.log[k], 0) && r.log[k + 1].sqn <= SEQ_MAX
            && w.log == s.n.log && j < |w.log| && w.log[j].use.Message? && Own(w, w.log[j].src) && w.log[j].sqn < SEQ_MAX
            && c.dst in s.rx && MsgOf(s, j).dst == c.dst && PoolOk(s.rx[c.dst])
            && Expecting(s.rx[c.dst], w.log[j].use.ctx, CountOf(s, j), Bits(CountOf(s, j)))
  {
    hide Expecting, Inv, Unhindered, Roomy, Enabled, IsFrameOf, SegCount;
    assert KeyOf(c).dst == KeyOf(MsgOf(s, j)).dst;
  }

  lemma PoolIsGood(s: Net, j: nat)
    requires Arrived(s, j)
    ensures PoolGood(Sender0(s.n), s.delivered, s.rx[MsgOf(s, j).dst]) && Numbering(Sender0(s.n))
  {
    NumberingOfNode(s.n);
  }

  lemma AlikeBelongs(s: Net, j: nat, c: MsgCtx, pdu: seq<byte>, m: Draw, h: MsgCtx)
    requires j < |s.n.log| && s.n.log[j].use.Message? && Again(s, j, c, pdu)
    requires m.use == SeqAuthUse(c.(seg := true), pdu) && Belongs(h, m)
    ensures Belongs(h, s.n.log[j]) && KeyOf(h) == KeyOf(c) && m.use.ctx.dst == c.dst && m.use.ctx.ctl && m.use.ctx.opcode == c.opcode
  {
    hide Unhindered, Roomy, Enabled, SegCount;
  }

  lemma AnswerReturns(s: Net, c: MsgCtx, pdu: seq<byte>, r: Node, rest: seq<byte>, out: RxOut, a: Ack)
    requires NodeOk(r) && IvValid(r.iv) && |s.n.log| + 1 < |r.log| && r.log[|s.n.log| + 1].use.OnAir? && c.dst in s.rx && PoolOk(s.rx[c.dst])
    requires var d := r.log[|s.n.log| + 1].use;
             && d.ctx.dst == c.dst && d.ctx.seg && d.ctx.opcode != 0 && |d.frame + rest| == 20 && 4 <= |d.frame| <= (if d.ctx.ctl then 12 else 16)
             && NetCtx(d.ctx).ctl == d.ctx.ctl && out == Receive(s.rx[c.dst], NetCtx(d.ctx), d.frame + rest, |d.frame|, true)
    requires out.ack == Some(a) && out.delivered.None? && KeyOf(a.ctx) == KeyOf(c) && a.block == Bits(SegCount(|pdu|, true))
    ensures Answered(s, c, pdu, r, rest)
  {
    hide Receive, SegCount, Bits;
    var u, v := s.(n := r), SegmentArrives(|s.n.log| + 1, rest, true);
    assert a in NextNet(u, v).acks;
  }

  // ---------- and ends as received ----------

  /** The events that lose the second message: it is sent, its first segment arrives, the answer returns. */
  function Losing(s: Net, c: MsgCtx, pdu: seq<byte>, rest: seq<byte>, a: Ack): seq<Event> {
    [Local(Send(c, pdu)), SegmentArrives(|s.n.log| + 1, rest, true), AckReturns(a)]
  }

  /** Every event is possible when it happens. */
  ghost predicate CanHappen(s: Net, vs: seq<Event>)
    requires NodeOk(s.n) && IvValid(s.n.iv)
    decreases |vs|
  {
    vs == [] || (Possible(s, vs[0]) && NodeOk(NextNet(s, vs[0]).n) && IvValid(NextNet(s, vs[0]).n.iv) && CanHappen(NextNet(s, vs[0]), vs[1..]))
  }

  ghost function Happens(s: Net, vs: seq<Event>): Net
    requires NodeOk(s.n) && IvValid(s.n.iv) && CanHappen(s, vs)
    decreases |vs|
  {
    if vs == [] then s else Happens(NextNet(s, vs[0]), vs[1..])
  }

  lemma ThreeHappen(s: Net, v1: Event, v2: Event, v3: Event, s1: Net, s2: Net, s3: Net)
    requires NodeOk(s.n) && IvValid(s.n.iv) && Possible(s, v1) && s1 == NextNet(s, v1) && NodeOk(s1.n) && IvValid(s1.n.iv)
    requires Possible(s1, v2) && s2 == NextNet(s1, v2) && NodeOk(s2.n) && IvValid(s2.n.iv)
    requires Possible(s2, v3) && s3 == NextNet(s2, v3) && NodeOk(s3.n) && IvValid(s3.n.iv)
    ensures CanHappen(s, [v1, v2, v3]) && Happens(s, [v1, v2, v3]) == s3
  {
    hide Possible, NextNet, NodeOk, IvValid;
    assert [v1, v2, v3][1..] == [v2, v3] && [v2, v3][1..] == [v3] && [v3][1..] == [];
    assert CanHappen(s3, []) && CanHappen(s2, [v3]) && CanHappen(s1, [v2, v3]);
    assert Happens(s3, []) == s3;
    assert Happens(s2, [v3]) == s3;
    assert Happens(s1, [v2, v3]) == s3;
  }

  /** Draw k numbered this message; the sender has ended it as received, and nobody was handed it. */
  ghost predicate Lost(t: Net, k: nat, c: MsgCtx, pdu: seq<byte>) {
    && k < |t.n.log| && t.n.log[k].use == SeqAuthUse(c.(seg := true), pdu)
    && KeyOf(c) in t.done && !AllHandedUp(t, KeyOf(c)) && !HasDelivered(t.delivered, KeyOf(c), pdu)
  }

  /** Whenever a message has arrived completely, let its sender send a different control message, of as many segments,
      under the same SeqAuth. One segment of it and the answer to that end it as fully acknowledged at the sender, and
      the receiver has not handed it up. */
  lemma SecondMessageIsLost(s: Net, j: nat, c: MsgCtx, pdu: seq<byte>, rest: seq<byte>) returns (a: Ack)
    requires Arrived(s, j) && Again(s, j, c, pdu) && |rest| + |SegData(pdu, true, 0)| == 16
    ensures NodeOk(s.n) && IvValid(s.n.iv) && CanHappen(s, Losing(s, c, pdu, rest, a))
    ensures Lost(Happens(s, Losing(s, c, pdu, rest, a)), |s.n.log|, c, pdu)
  {
    var v1, v2 := Local(Send(c, pdu)), SegmentArrives(|s.n.log| + 1, rest, true);
    SentOnce(s, j, c, pdu);
    var u := NextNet(s, v1);
    hide *;
    AnsweredInFull(s, j, c, pdu, u.n, rest);
    AnswerIs(s, c, pdu, u, rest);
    var t := NextNet(u, v2);
    a :| a in t.acks && KeyOf(a.ctx) == KeyOf(c) && a.block == Bits(SegCount(|pdu|, true));
    EndsUnheard(s, j, c, pdu, t, a);
    ThreeHappen(s, v1, v2, AckReturns(a), u, t, NextNet(t, AckReturns(a)));
    LosingIs(s, c, pdu, rest, a);
  }

  lemma AnswerIs(s: Net, c: MsgCtx, pdu: seq<byte>, u: Net, rest: seq<byte>)
    requires u == s.(n := u.n) && Answered(s, c, pdu, u.n, rest)
    ensures NodeOk(u.n) && IvValid(u.n.iv) && Possible(u, SegmentArrives(|s.n.log| + 1, rest, true))
    ensures var t := NextNet(u, SegmentArrives(|s.n.log| + 1, rest, true));
            && t.n == u.n && t.delivered == s.delivered
            && exists a :: a in t.acks && KeyOf(a.ctx) == KeyOf(c) && a.block == Bits(SegCount(|pdu|, true))
  {
    hide NextNet;
  }

  lemma LosingIs(s: Net, c: MsgCtx, pdu: seq<byte>, rest: seq<byte>, a: Ack)
    ensures Losing(s, c, pdu, rest, a) == [Local(Send(c, pdu)), SegmentArrives(|s.n.log| + 1, rest, true), AckReturns(a)]
  {
  }

  lemma SentOnce(s: Net, j: nat, c: MsgCtx, pdu: seq<byte>)
    requires Arrived(s, j) && Again(s, j, c, pdu)
    ensures NodeOk(s.n) && IvValid(s.n.iv) && Possible(s, Local(Send(c, pdu)))
    ensures var u := NextNet(s, Local(Send(c, pdu))); u == s.(n := u.n) && SentFirst(s.n, c, pdu, u.n) && NodeOk(u.n) && IvValid(u.n.iv)
  {
    InvFacts(s);
    SendsFirst(s.n, c, pdu);
    SendIsNext(s, c, pdu);
    hide SendMessage, Do, Expecting, OnlyTask, IsFrameOf, Traced, ListGood, NoneAcked, Partition, WaitsOr, DistinctDst, Roomy, Unhindered, RxInv;
  }

  lemma EndsUnheard(s: Net, j: nat, c: MsgCtx, pdu: seq<byte>, t: Net, a: Ack)
    requires Arrived(s, j) && Again(s, j, c, pdu) && SentFirst(s.n, c, pdu, t.n) && t.delivered == s.delivered
    requires a in t.acks && KeyOf(a.ctx) == KeyOf(c) && a.block == Bits(SegCount(|pdu|, true))
    ensures NodeOk(t.n) && IvValid(t.n.iv) && Possible(t, AckReturns(a))
    ensures var u := NextNet(t, AckReturns(a)); NodeOk(u.n) && IvValid(u.n.iv) && Lost(u, |s.n.log|, c, pdu)
  {
    NotHandedUp(s, j, c, pdu);
    SentTask(s.n, c, pdu, t, a);
    hide *;
    AckExtends(t, a);
    AckEndsTask(t, |s.n.log|, s.n.idle[0], a);
    StillLost(t, NextNet(t, AckReturns(a)), |s.n.log|, c, pdu);
  }

  lemma SentTask(n: Node, c: MsgCtx, pdu: seq<byte>, t: Net, a: Ack)
    requires c.ctl && SentFirst(n, c, pdu, t.n) && a in t.acks && KeyOf(a.ctx) == KeyOf(c)
    ensures var k := |n.log|;
            && NodeOk(t.n) && IvValid(t.n.iv) && Good(t.n) && Sched(t.n) && Possible(t, AckReturns(a)) && n.idle != [] && OnlyTask(t.n, k, n.idle[0])
            && k < |t.n.log| && t.n.log[k].use == SeqAuthUse(c.(seg := true), pdu) && t.n.log[k].use.Message? && t.n.log[k].sqn < SEQ_MAX
            && KeyOf(MsgOf(t, k)) == KeyOf(c) && CountOf(t, k) == SegCount(|pdu|, true)
  {
    hide OnlyTask, IsFrameOf, Traced, ListGood, NoneAcked, Partition, WaitsOr, DistinctDst, SegCount;
    assert KeyOf(a.ctx).src == KeyOf(c).src;
  }

  lemma AckExtends(t: Net, a: Ack)
    requires NodeOk(t.n) && IvValid(t.n.iv) && Good(t.n) && Sched(t.n) && Possible(t, AckReturns(a))
    ensures var u := NextNet(t, AckReturns(a)); NodeOk(u.n) && IvValid(u.n.iv) && t.n.log <= u.n.log
  {
    ReceiveAckGood(t.n, SeqZero(a.ctx.seqAuth), a.block);
    hide Traced, ListGood, NoneAcked, Sched, ReceiveAck;
  }

  lemma StillLost(t: Net, u: Net, k: nat, c: MsgCtx, pdu: seq<byte>)
    requires k < |t.n.log| && t.n.log <= u.n.log && t.n.log[k].use == SeqAuthUse(c.(seg := true), pdu) && t.n.log[k].sqn < SEQ_MAX
    requires KeyOf(c) in u.done && u.delivered == t.delivered && !HasDelivered(t.delivered, KeyOf(c), pdu)
    ensures Lost(u, k, c, pdu)
  {
    hide HasDelivered;
    assert u.n.log[k] == t.n.log[k] && KeyOf(u.n.log[k].use.ctx) == KeyOf(c);
  }

  lemma NotHandedUp(s: Net, j: nat, c: MsgCtx, pdu: seq<byte>)
    requires Arrived(s, j) && Again(s, j, c, pdu)
    ensures !HasDelivered(s.delivered, KeyOf(c), pdu) && c.ctl
  {
    hide Inv, Unhindered, Roomy, Enabled, Expecting;
    if HasDelivered(s.delivered, KeyOf(c), pdu) {
      var d :| d in s.delivered && KeyOf(d.ctx) == KeyOf(c) && d.data == pdu;
      DeliveredIs(s, j, d);
      assert false;
    }
  }

  // ---------- from a fresh network ----------

  ghost predicate Leads(s: Net, vs: seq<Event>, t: Net) {
    NodeOk(s.n) && IvValid(s.n.iv) && FairRun(s, vs) && RunNet(s, vs) == t
  }

  lemma LeadsCons(s: Net, v: Event, vs: seq<Event>, t: Net)
    requires NodeOk(s.n) && IvValid(s.n.iv) && Possible(s, v) && Fair(s, v) && Leads(NextNet(s, v), vs, t)
    ensures Leads(s, [v] + vs, t)
  {
    hide Possible, Fair, NextNet, NodeOk, IvValid;
    assert ([v] + vs)[0] == v && ([v] + vs)[1..] == vs;
  }

  /** Segments arrive one after the other, and then the acknowledgement a. */
  lemma {:induction false} ArrivalsLead(s: Net, j: nat, order: seq<nat>, tail: Tails, held: set<nat>, t: nat) returns (u: Net, a: Ack)
    requires Underway(s, j, held) && OnlyTask(s.n, j, t) && forall i :: 0 <= i < |order| ==> order[i] < CountOf(s, j)
    requires held + Elems(order) == Bits(CountOf(s, j)) && TailsFit(tail, s.n.log[j].use.pdu, MsgOf(s, j).ctl)
    ensures u.n == s.n && Underway(u, j, Bits(CountOf(s, j))) && NodeOk(u.n) && IvValid(u.n.iv)
    ensures a in u.acks && KeyOf(a.ctx) == KeyOf(MsgOf(s, j)) && a.block == Bits(CountOf(s, j)) && Possible(u, AckReturns(a)) && Fair(u, AckReturns(a))
    ensures Leads(s, Arrivals(j, order, tail) + [AckReturns(a)], NextNet(u, AckReturns(a)))
    decreases |order|
  {
    hide *;
    UnderwayFacts(s, j, held);
    if order == [] {
      assert Arrivals(j, order, tail) == [] by { NoArrivals(j, tail); }
      assert held == Bits(CountOf(s, j)) by { ElemsOfNone(); }
      u := s;
      a := SomeFullAck(s, j, t);
      assert [] + [AckReturns(a)] == [AckReturns(a)] + [];
      LeadsCons(s, AckReturns(a), [], NextNet(u, AckReturns(a)));
    } else {
      StepArrives(s, j, order[0], held, tail);
      ElemsOfFirst(order);
      var v := ArrivalOf(j, order[0], tail);
      SameMessageThere(s, NextNet(s, v), j);
      u, a := ArrivalsLead(NextNet(s, v), j, order[1..], tail, held + {order[0]}, t);
      LeadsCons(s, v, Arrivals(j, order[1..], tail) + [AckReturns(a)], NextNet(u, AckReturns(a)));
      FirstOfArrivals(j, order, tail, a);
    }
  }

  lemma SameMessageThere(s: Net, u: Net, j: nat)
    requires j < |s.n.log| && s.n.log[j].use.Message? && u.n == s.n
    ensures MsgOf(u, j) == MsgOf(s, j) && CountOf(u, j) == CountOf(s, j)
  {
  }

  lemma NoArrivals(j: nat, tail: Tails)
    ensures Arrivals(j, [], tail) == []
  {
  }

  lemma FirstOfArrivals(j: nat, order: seq<nat>, tail: Tails, a: Ack)
    requires order != []
    ensures Arrivals(j, order, tail) + [AckReturns(a)] == [ArrivalOf(j, order[0], tail)] + (Arrivals(j, order[1..], tail) + [AckReturns(a)])
  {
  }

  lemma SomeFullAck(s: Net, j: nat, t: nat) returns (a: Ack)
    requires OnTheAir(s, j) && FullyAcked(s, j) && OnlyTask(s.n, j, t)
    ensures NodeOk(s.n) && IvValid(s.n.iv) && a in s.acks && KeyOf(a.ctx) == KeyOf(MsgOf(s, j)) && a.block == Bits(CountOf(s, j))
    ensures Possible(s, AckReturns(a)) && Fair(s, AckReturns(a)) && Leads(NextNet(s, AckReturns(a)), [], NextNet(s, AckReturns(a)))
  {
    a :| a in s.acks && KeyOf(a.ctx) == KeyOf(MsgOf(s, j)) && a.block == Bits(CountOf(s, j));
    AckFair(s, j, t, a);
    InvFacts(s);
    EventKeeps(s, AckReturns(a));
    InvFacts(NextNet(s, AckReturns(a)));
    hide NodeOk, IvValid, Possible, Fair, NextNet;
  }

  lemma {:induction false} BurstBound(n: Node, s: nat, i: nat, x: nat)
    requires s < |n.tasks| && i <= TaskCount(n.tasks[s]) && OwnSource(n, x)
    ensures var r := SendFrom(n, s, i).node; OwnSource(r, x) && Next(r, x) <= Next(n, x) + TaskCount(n.tasks[s]) - i
    decreases TaskCount(n.tasks[s]) - i
  {
    hide SegPdu;
    if i < TaskCount(n.tasks[s]) {
      if i in n.tasks[s].blockAck { BurstBound(n, s, i + 1, x); } else { BurstBound(SendOne(n, s, i).node, s, i + 1, x); }
    }
  }

  /** The sender once its only message has ended: idle, with its log as it was and its counter little further. */
  predicate EndedAt(n: Node, r: Node, c: MsgCtx, count: nat) {
    && r.active == [] && r.idle != [] && OwnSource(r, c.src) && OwnSource(n, c.src) && Next(r, c.src) <= Next(n, c.src) + count
  }

  lemma SentThenEnded(n: Node, c: MsgCtx, p: seq<byte>)
    requires Unhindered(n, c, p) && CountersOk(n) && n.active == [] && n.pending == [] && c.ctl
    ensures NodeOk(n) && NodeOk(SendMessage(n, c, p)) && EndedAt(n, ReceiveAck(SendMessage(n, c, p), SeqZero(c.seqAuth), Bits(SegCount(|p|, true))), c, SegCount(|p|, true))
    ensures ReceiveAck(SendMessage(n, c, p), SeqZero(c.seqAuth), Bits(SegCount(|p|, true))).log == SendMessage(n, c, p).log
  {
    SentAlone(n, c, p);
    assert NodeOk(n);
    hide *;
    EndsInFull(n, SendMessage(n, c, p), n.idle[0], c, SegCount(|p|, true));
  }

  /** The sender with its only task just sent. */
  predicate Alone(n: Node, r: Node, t: nat, c: MsgCtx, count: nat) {
    && NodeOk(r) && r.active == [t] && r.pending == [] && t < |r.tasks| && r.tasks[t].segBits == Bits(count) && r.tasks[t].ctx.seqAuth == c.seqAuth
    && OwnSource(r, c.src) && OwnSource(n, c.src) && Next(r, c.src) <= Next(n, c.src) + count
  }

  lemma SentAlone(n: Node, c: MsgCtx, p: seq<byte>)
    requires Unhindered(n, c, p) && CountersOk(n) && n.active == [] && n.pending == [] && c.ctl
    ensures n.idle != [] && Alone(n, SendMessage(n, c, p), n.idle[0], c, SegCount(|p|, true))
  {
    var t, f := n.idle[0], Started(n, c, p);
    StartedSends(n, c, p);
    BurstBound(f, t, 0, c.src);
    var r := SendFrom(f, t, 0).node;
    hide SendFrom, SendMessage, SegCount, Bits;
    assert OnlySends(f, r, t);
  }

  lemma EndsInFull(n: Node, r: Node, t: nat, c: MsgCtx, count: nat)
    requires Alone(n, r, t, c, count)
    ensures var z := ReceiveAck(r, SeqZero(c.seqAuth), Bits(count)); EndedAt(n, z, c, count) && z.log == r.log
  {
    hide Bits, Finish;
    OneActive(r, SeqZero(c.seqAuth));
    EndsOnly(r, t);
  }

  lemma EndsOnly(r: Node, t: nat)
    requires NodeOk(r) && r.active == [t] && r.pending == [] && t < |r.tasks|
    ensures var z := Finish(r, t); z == Release(r, t) && z.active == [] && z.idle != [] && z.log == r.log && z.counters == r.counters && z.addr == r.addr
  {
    assert [t][1..] == [];
  }

  /** The message q could be sent in p's place. */
  predicate Alike(c: MsgCtx, p: seq<byte>, q: seq<byte>) {
    q != p && q != [] && NeedsSegments(c, |q|) && SegCount(|q|, true) == SegCount(|p|, true)
  }

  /** The first message of a fresh network has been sent as p under context c, and has arrived. */
  ghost predicate FirstIsIn(s0: Net, c: MsgCtx, p: seq<byte>, s: Net) {
    && NodeOk(s.n) && IvValid(s.n.iv) && 0 < |s.n.log| && s.n.log[0].use == SeqAuthUse(c.(seg := true), p)
    && Underway(s, 0, Bits(CountOf(s, 0))) && NodeOk(Readied(s0, c).n) && s.n == SendMessage(Readied(s0, c).n, c, p)
  }

  lemma FirstRun(s0: Net, c: MsgCtx, p: seq<byte>) returns (vs: seq<Event>, s: Net, a: Ack)
    requires AtStart(s0, c, p) && c.ctl
    ensures NodeOk(s.n) && IvValid(s.n.iv) && FirstIsIn(s0, c, p, s) && Possible(s, AckReturns(a)) && Fair(s, AckReturns(a)) && Reached(s0, vs, NextNet(s, AckReturns(a)))
    ensures KeyOf(a.ctx) == KeyOf(c) && a.block == Bits(SegCount(|p|, true))
  {
    var n := SegCount(|p|, true);
    var order := Range(n);
    var u, v := Readied(s0, c), Local(Send(c, p));
    StartFacts(s0, c, p);
    hide *;
    StartIsClear(s0, c, p);
    InOrder(n);
    var tail := ZeroTails(p, true);
    SentIsUnderway(u, c, p);
    var s1 := NextNet(u, v);
    FirstFacts(u, c, p, s1);
    s, a := ArrivalsLead(s1, 0, order, tail, {}, u.n.idle[0]);
    var ws := Arrivals(0, order, tail) + [AckReturns(a)];
    LeadsCons(u, v, ws, NextNet(s, AckReturns(a)));
    LeadsCons(s0, Local(TakeNumber(c.src)), [v] + ws, NextNet(s, AckReturns(a)));
    vs := [Local(TakeNumber(c.src))] + ([v] + ws);
    LeadsIsReached(s0, vs, NextNet(s, AckReturns(a)));
    FirstIs(s0, c, p, s1, s);
    SameKeys(c);
  }

  lemma SameKeys(c: MsgCtx)
    ensures KeyOf(c.(seg := true, sqn := c.seqAuth)) == KeyOf(c)
  {
  }

  lemma FirstIs(s0: Net, c: MsgCtx, p: seq<byte>, s1: Net, s: Net)
    requires NodeOk(s.n) && IvValid(s.n.iv) && s.n == s1.n && 0 < |s1.n.log| && s1.n.log[0].use == SeqAuthUse(c.(seg := true), p)
    requires Underway(s, 0, Bits(CountOf(s1, 0))) && NodeOk(Readied(s0, c).n) && s1.n == SendMessage(Readied(s0, c).n, c, p)
    ensures FirstIsIn(s0, c, p, s)
  {
    hide Underway, SendMessage, Readied, NodeOk, IvValid, Bits, SegCount;
  }

  /** From a fresh network: the first message completes at both ends, and its context can be used again. */
  lemma FirstThenAgain(s0: Net, c: MsgCtx, p: seq<byte>, q: seq<byte>) returns (vs: seq<Event>, s: Net)
    requires AtStart(s0, c, p) && c.ctl && Alike(c, p, q)
    ensures Reached(s0, vs, s) && Arrived(s, 0) && Again(s, 0, c, q)
  {
    hide *;
    var s2, a;
    vs, s2, a := FirstRun(s0, c, p);
    s := NextNet(s2, AckReturns(a));
    FirstEnds(s0, c, p, s2, a);
    StillArrived(s0, s2, s, c, p);
    ReadyAgain(s0, s2, s, c, p, q);
  }

  /** What the acknowledgement of the first message leaves. */
  ghost predicate FirstEnded(s0: Net, s2: Net, s: Net, c: MsgCtx, p: seq<byte>) {
    && Inv(s) && s.rx == s2.rx && s.n.log == s2.n.log && EndedAt(Readied(s0, c).n, s.n, c, SegCount(|p|, true))
  }

  lemma FirstEnds(s0: Net, c: MsgCtx, p: seq<byte>, s2: Net, a: Ack)
    requires AtStart(s0, c, p) && c.ctl && FirstIsIn(s0, c, p, s2) && Possible(s2, AckReturns(a)) && Fair(s2, AckReturns(a))
    requires KeyOf(a.ctx) == KeyOf(c) && a.block == Bits(SegCount(|p|, true))
    ensures NodeOk(s2.n) && IvValid(s2.n.iv) && FirstEnded(s0, s2, NextNet(s2, AckReturns(a)), c, p)
  {
    StartFacts(s0, c, p);
    StartIsClear(s0, c, p);
    UnderwayInv(s2, 0, Bits(CountOf(s2, 0)));
    var u := Readied(s0, c);
    assert Unhindered(u.n, c, p) && CountersOk(u.n) by { ClearFacts(u, c, p); }
    assert NodeOk(s2.n) && IvValid(s2.n.iv) && s2.n == SendMessage(u.n, c, p) && c.ctl;
    hide *;
    EventKeeps(s2, AckReturns(a));
    SentThenEnded(u.n, c, p);
    AckIsEnd(s2, c, a, SegCount(|p|, true));
    EndedIs(s0, s2, NextNet(s2, AckReturns(a)), c, p);
  }

  lemma ClearFacts(u: Net, c: MsgCtx, p: seq<byte>)
    requires Inv(u) && ClearWay(u, c, p)
    ensures Unhindered(u.n, c, p) && CountersOk(u.n)
  {
    hide Expecting;
  }

  lemma EndedIs(s0: Net, s2: Net, s: Net, c: MsgCtx, p: seq<byte>)
    requires Inv(s) && s.rx == s2.rx && s.n.log == s2.n.log && EndedAt(Readied(s0, c).n, s.n, c, SegCount(|p|, true))
    ensures FirstEnded(s0, s2, s, c, p)
  {
  }

  lemma AckIsEnd(s: Net, c: MsgCtx, a: Ack, n: nat)
    requires NodeOk(s.n) && IvValid(s.n.iv) && Possible(s, AckReturns(a)) && a.block == Bits(n) && KeyOf(a.ctx) == KeyOf(c)
    ensures var t := NextNet(s, AckReturns(a)); t.rx == s.rx && t.n == ReceiveAck(s.n, SeqZero(c.seqAuth), Bits(n))
  {
    hide Bits, ReceiveAck;
    assert KeyOf(a.ctx).seqAuth == c.seqAuth;
  }

  lemma StillArrived(s0: Net, s2: Net, s: Net, c: MsgCtx, p: seq<byte>)
    requires FirstIsIn(s0, c, p, s2) && FirstEnded(s0, s2, s, c, p)
    ensures Arrived(s, 0)
  {
    assert s.n.log[0].src == c.src by { NumberedSource(s, c, p); }
    hide Expecting, Inv, AllSent, SegCount, Bits, SendMessage, Readied;
    assert MsgOf(s, 0) == MsgOf(s2, 0) && CountOf(s, 0) == CountOf(s2, 0);
  }

  lemma NumberedSource(s: Net, c: MsgCtx, p: seq<byte>)
    requires Inv(s) && 0 < |s.n.log| && s.n.log[0].use == SeqAuthUse(c.(seg := true), p)
    ensures s.n.log[0].src == c.src
  {
    assert DrawOk(s.n.log, s.n.log[0]);
  }

  lemma ReadyAgain(s0: Net, s2: Net, s: Net, c: MsgCtx, p: seq<byte>, q: seq<byte>)
    requires AtStart(s0, c, p) && c.ctl && Alike(c, p, q) && FirstIsIn(s0, c, p, s2) && FirstEnded(s0, s2, s, c, p)
    ensures 0 < |s.n.log| && s.n.log[0].use.Message? && Again(s, 0, c, q)
  {
    StartFacts(s0, c, p);
    InvNode(s2, s);
    assert EndedAt(Readied(s0, c).n, s.n, c, SegCount(|p|, true)) && s.n.log == s2.n.log && s.n.log[0].use == SeqAuthUse(c.(seg := true), p);
    ContextFits(s0, c, p);
    hide *;
    SendableAgain(Readied(s0, c).n, s.n, c, p, q);
    AgainIs(s, c, p, q);
  }

  lemma ContextFits(s0: Net, c: MsgCtx, p: seq<byte>)
    requires AtStart(s0, c, p)
    ensures Fits(c) && IsValidAddress(c.dst) && (c.ctl ==> c.opcode != 0 && c.seqAuth == 0) && SegCount(|p|, c.ctl) <= MAX_SEGMENTS
  {
  }

  lemma SendableAgain(n: Node, r: Node, c: MsgCtx, p: seq<byte>, q: seq<byte>)
    requires EndedAt(n, r, c, SegCount(|p|, true)) && Next(n, c.src) <= 1 && NodeOk(r) && IvValid(r.iv) && CountersOk(r)
    requires forall i :: 0 <= i < |r.log| ==> r.log[i].sqn < SEQ_MAX
    requires c.ctl && c.seqAuth == 0 && Alike(c, p, q) && SegCount(|p|, true) <= MAX_SEGMENTS && Fits(c) && IsValidAddress(c.dst)
    ensures Unhindered(r, c, q) && Roomy(r, c, q) && Enabled(r, Send(c, q)) && r.active == []
  {
    hide SegCount;
  }

  lemma AgainIs(s: Net, c: MsgCtx, p: seq<byte>, q: seq<byte>)
    requires 0 < |s.n.log| && s.n.log[0].use == SeqAuthUse(c.(seg := true), p) && Alike(c, p, q) && c.ctl && c.opcode != 0
    requires s.n.active == [] && Unhindered(s.n, c, q) && Roomy(s.n, c, q) && Enabled(s.n, Send(c, q))
    ensures s.n.log[0].use.Message? && Again(s, 0, c, q)
  {
    hide Unhindered, Roomy, Enabled;
  }

  lemma InvNode(s2: Net, s: Net)
    requires Inv(s) && OnTheAir(s2, 0) && s.n.log == s2.n.log
    ensures NodeInv(s.n) && CountersOk(s.n) && NodeOk(s.n) && IvValid(s.n.iv) && (forall i :: 0 <= i < |s.n.log| ==> s.n.log[i].sqn < SEQ_MAX)
  {
  }

  lemma StartFacts(s0: Net, c: MsgCtx, p: seq<byte>)
    requires AtStart(s0, c, p) && c.ctl
    ensures var u := Readied(s0, c);
            && Start(s0) && c.ctl && u.n.log == [] && u.n.active == [] && u.n.pending == [] && c.seqAuth == 0
            && Next(u.n, c.src) <= 1 && KeyOf(WithNumber(u.n, c)) == KeyOf(c) && WithNumber(u.n, c) == c
  {
  }

  /** The facts about the first message that the run needs. */
  lemma FirstFacts(u: Net, c: MsgCtx, p: seq<byte>, s1: Net)
    requires Inv(u) && ClearWay(u, c, p) && c.ctl && u.n.log == [] && WithNumber(u.n, c) == c && NodeOk(u.n) && IvValid(u.n.iv)
    requires Possible(u, Local(Send(c, p))) && s1 == NextNet(u, Local(Send(c, p))) && Underway(s1, 0, {})
    requires s1.n.log[0].use == SeqAuthUse(WithNumber(u.n, c).(seg := true), p)
    ensures 0 < |s1.n.log| && s1.n.log[0].use.Message? && s1.n.log[0].use.pdu == p && MsgOf(s1, 0) == c.(seg := true, sqn := c.seqAuth)
    ensures CountOf(s1, 0) == SegCount(|p|, true) && MsgOf(s1, 0).ctl && s1.n == SendMessage(u.n, c, p) && CountersOk(u.n)
    ensures Unhindered(u.n, c, p) && u.n.idle != [] && OwnSource(u.n, c.src) && {} + Elems(Range(CountOf(s1, 0))) == Bits(CountOf(s1, 0))
  {
    InOrder(CountOf(s1, 0));
    SendIsNext(u, c, p);
    hide SendMessage, Expecting, Underway, SegCount, Bits, Elems, Range;
  }

  lemma LeadsIsReached(s0: Net, vs: seq<Event>, s: Net)
    requires Start(s0) && Leads(s0, vs, s)
    ensures Reached(s0, vs, s)
  {
  }

  lemma UnderwayInv(s: Net, j: nat, held: set<nat>)
    requires Underway(s, j, held)
    ensures Inv(s)
  {
  }

  /** So the fresh network, one control message and another under its SeqAuth are enough. */
  lemma FreshNetworkLosesMessage(s0: Net, c: MsgCtx, p: seq<byte>, q: seq<byte>, rest: seq<byte>) returns (vs: seq<Event>, s: Net, a: Ack)
    requires AtStart(s0, c, p) && c.ctl && Alike(c, p, q) && |rest| + |SegData(q, true, 0)| == 16
    ensures Reached(s0, vs, s) && NodeOk(s.n) && IvValid(s.n.iv) && CanHappen(s, Losing(s, c, q, rest, a))
    ensures Lost(Happens(s, Losing(s, c, q, rest, a)), |s.n.log|, c, q)
  {
    hide *;
    vs, s := FirstThenAgain(s0, c, p, q);
    a := SecondMessageIsLost(s, 0, c, q, rest);
  }
}
