// One round of repair: what the receiver's timer tells the sender, and what the sender then sends again.

module Repair {
  import opened Bytes
  import opened Mesh
  import opened Segments
  import opened IvIndex
  import opened TxNode
  import opened Scheduler
  import opened RxNode
  import opened RxPools
  import opened Bursts
  import opened Transport
  import RxTraffic
  import RxAnswers
  import StoreRules

  /** Nothing is left out, and nothing that has been acknowledged is sent again. */
  lemma {:induction false} MissingIsRest(t: TxTask, i: nat)
    ensures forall k :: k in Missing(t, i) <==> i <= k < TaskCount(t) && k !in t.blockAck
    decreases TaskCount(t) - i
  {
    if i < TaskCount(t) { MissingIsRest(t, i + 1); }
  }

  /** u reassembles the message that t sends. */
  ghost predicate Reassembling(u: RxTask, t: TxTask) { u.ctx.ctl == t.ctx.ctl && Holds(u, t.ctx.ctl, t.pdu) }

  /** The timer's acknowledgement that comes back to a task that goes on: exactly the segments that the receiver lacks are
      sent again, in order, each under the next number. */
  lemma RepeatsWhatIsMissing(s: Net, at: nat, slot: nat, t: nat)
    requires Inv(s) && Possible(s, AckTimer(at, slot)) && t < |s.n.tasks|
    requires var u := s.rx[at].tasks[slot];
             OwnSource(s.n, u.ctx.src) && AckedSlot(s.n, SeqZero(u.ctx.seqAuth), 0) == Some(t) && Reassembling(u, s.n.tasks[t])
    ensures var u, v := s.rx[at].tasks[slot], NextNet(s, AckTimer(at, slot));
            && Possible(v, AckReturns(Ack(u.ctx, u.blockAck)))
            && var w, c := NextNet(v, AckReturns(Ack(u.ctx, u.blockAck))).n, s.n.tasks[t].ctx;
               && t < |w.tasks|
               && (t in w.active ==>
                     var m := Missing(w.tasks[t], 0);
                     && (forall k :: k in m <==> k in u.notReceived)
                     && (forall x :: 0 <= x < |m| ==> m[x] < SegCount(|s.n.tasks[t].pdu|, c.ctl))
                     && w.log == s.n.log + Outgoing(c, s.n.tasks[t].pdu, m, Next(s.n, c.src), OwnSource(s.n, c.src)))
  {
    var u := s.rx[at].tasks[slot];
    Facts(s);
    hide *;
    TimerReturns(s, at, slot);
    StoreRules.AckKeepsIff(s.n, SeqZero(u.ctx.seqAuth), u.blockAck, t);
    var w := ReceiveAck(s.n, SeqZero(u.ctx.seqAuth), u.blockAck);
    if t in w.active {
      Resent(s.n, SeqZero(u.ctx.seqAuth), u.blockAck, t);
      LacksTheRest(u, s.n.tasks[t], w.tasks[t]);
    }
  }

  lemma Facts(s: Net)
    requires Inv(s)
    ensures Sched(s.n) && NodeOk(s.n) && IvValid(s.n.iv)
  {
  }

  lemma TimerReturns(s: Net, at: nat, slot: nat)
    requires NodeOk(s.n) && IvValid(s.n.iv) && Possible(s, AckTimer(at, slot)) && OwnSource(s.n, s.rx[at].tasks[slot].ctx.src)
    ensures var u, v := s.rx[at].tasks[slot], NextNet(s, AckTimer(at, slot));
            && v.n == s.n && Possible(v, AckReturns(Ack(u.ctx, u.blockAck)))
            && NextNet(v, AckReturns(Ack(u.ctx, u.blockAck))).n == ReceiveAck(s.n, SeqZero(u.ctx.seqAuth), u.blockAck)
  {
    hide ReceiveAck, AckedSlot;
  }

  lemma LacksTheRest(u: RxTask, t: TxTask, w: TxTask)
    requires Reassembling(u, t) && w.blockAck == u.blockAck != {} && w.pdu == t.pdu && w.ctx.ctl == t.ctx.ctl
    ensures forall k :: k in Missing(w, 0) <==> k in u.notReceived
  {
    MissingIsRest(w, 0);
  }

  lemma Resent(n: Node, z: nat, block: set<nat>, t: nat)
    requires Sched(n) && AckedSlot(n, z, 0) == Some(t) && t < |n.tasks|
    requires t in ReceiveAck(n, z, block).active && t < |ReceiveAck(n, z, block).tasks|
    ensures var w, c := ReceiveAck(n, z, block), n.tasks[t].ctx;
            var m := Missing(w.tasks[t], 0);
            && w.tasks[t].pdu == n.tasks[t].pdu && w.tasks[t].ctx.ctl == c.ctl && w.tasks[t].blockAck == block != {}
            && (forall x :: 0 <= x < |m| ==> m[x] < SegCount(|n.tasks[t].pdu|, c.ctl))
            && w.log == n.log + Outgoing(c, n.tasks[t].pdu, m, Next(n, c.src), OwnSource(n, c.src))
  {
    var r := Retried(n.tasks[t]).(blockAck := block);
    var m := WithTask(n, t, r);
    StoreRules.AckKeepsIff(n, z, block, t);
    WithTaskSched(n, t, r);
    StoreRules.ResendKeepsIff(m, t);
    SendsMissingInOrder(m, t, 0);
    MissingInRange(r, 0);
    MissingIgnoresCtx(r, ReceiveAck(n, z, block).tasks[t], 0);
  }

  /** When a task's time is over its message is forgotten and its slot is free for any other; the messages of other sources
      keep theirs, and nothing is sent or handed up. */
  lemma ExpiryForgets(s: Net, at: nat, slot: nat, c: MsgCtx)
    requires NodeOk(s.n) && IvValid(s.n.iv) && Possible(s, StoreTimer(at, slot)) && Shaped(s.rx[at])
    ensures var u, v := s.rx[at].tasks[slot].ctx, NextNet(s, StoreTimer(at, slot));
            && v == s.(rx := s.rx[at := v.rx[at]]) && v.rx[at] == RxTraffic.Handle(s.rx[at], RxTraffic.Expires(slot)).pool
            && Shaped(v.rx[at]) && !RxAnswers.NoRoom(v.rx[at], c)
            && (RxAnswers.Reassembles(v.rx[at], c) <==> RxAnswers.Reassembles(s.rx[at], c) && c.src != u.src)
  {
    var p, r := s.rx[at], RxRelease(s.rx[at], slot);
    ReleaseShape(p, slot);
    RxAnswers.Room(p, slot);
    OthersStay(p, slot, c);
    hide RxPartition, RxRelease, RxAnswers.Reassembles, RxAnswers.NoRoom;
  }

  lemma OthersStay(p: RxPool, slot: nat, c: MsgCtx)
    requires Shaped(p) && slot in p.active
    ensures slot < |p.tasks| && PoolOk(RxRelease(p, slot))
    ensures RxAnswers.Reassembles(RxRelease(p, slot), c) <==> RxAnswers.Reassembles(p, c) && c.src != p.tasks[slot].ctx.src
  {
    var r := RxRelease(p, slot);
    ReleaseShape(p, slot);
    var j := ReleaseIndex(p, slot);
    hide RxPartition, RxRelease;
    if RxAnswers.Reassembles(p, c) && c.src != p.tasks[slot].ctx.src {
      var x :| RxAnswers.TaskFor(p, c, x);
      var i :| 0 <= i < |p.active| && p.active[i] == x;
      StaysAfterRelease(p, slot, i);
      assert RxAnswers.TaskFor(r, c, x);
    }
    if RxAnswers.Reassembles(r, c) {
      var x :| RxAnswers.TaskFor(r, c, x);
      var i :| 0 <= i < |r.active| && r.active[i] == x;
      assert RxAnswers.TaskFor(p, c, x);
    }
  }
}
