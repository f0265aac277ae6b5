// The reassembly half of mesh/transport/meshx_lower_trans.c as the module state it is, changed in place, each
// routine proved to do what the step function of RxNode says.

module MeshReceiver {
  import opened Bytes
  import opened Mesh
  import opened Segments
  import opened TxNode
  import opened RxNode

  class ReceiverState {
    var tasks: seq<RxTask>
    var idle: seq<nat>
    var active: seq<nat>

    function Abs(): RxPool
      reads this
    {
      RxPool(tasks, idle, active, false)
    }

    /** Every slot idle and cleared. */
    constructor (taskNum: nat)
      ensures Abs().idle == Range(taskNum) && Abs().active == [] && |tasks| == taskNum
      ensures forall s :: 0 <= s < taskNum ==> tasks[s].pduLen == 0 && tasks[s].notReceived == {}
    {
      var none := MsgCtx(0, 0, 0, false, false, false, false, 0, 0, 0, 0, 0);
      tasks := seq(taskNum, _ => RxTask(none, [], 0, {}, {}));
      idle, active := Range(taskNum), [];
    }

    method RxTaskRelease(s: nat)
      requires s < |tasks|
      modifies this`active, this`idle
      ensures Abs() == RxRelease(old(Abs()), s)
    {
      active := Without(active, s);
      idle := idle + [s];
    }

    /** The walk over the active list. */
    method FindTask(src: nat) returns (k: nat)
      requires PoolOk(Abs())
      ensures k == FindSource(Abs(), src, 0)
    {
      k := 0;
      while k < |active| && tasks[active[k]].ctx.src != src
        invariant 0 <= k <= |active| && FindSource(Abs(), src, 0) == FindSource(Abs(), src, k)
      {
        k := k + 1;
      }
    }

    method MarkMissing(s: nat, segNum: nat)
      requires s < |tasks|
      modifies this`tasks
      ensures tasks == old(tasks)[s := old(tasks)[s].(notReceived := old(tasks)[s].notReceived + Bits(segNum))]
    {
      var i := 0;
      assert tasks[s].notReceived + Bits(0) == tasks[s].notReceived;
      assert tasks == tasks[s := tasks[s].(notReceived := tasks[s].notReceived)];
      while i < segNum
        invariant 0 <= i <= segNum
        invariant tasks == old(tasks)[s := old(tasks)[s].(notReceived := old(tasks)[s].notReceived + Bits(i))]
      {
        tasks := tasks[s := tasks[s].(notReceived := tasks[s].notReceived + {i})];
        assert old(tasks)[s].notReceived + Bits(i) + {i} == old(tasks)[s].notReceived + Bits(i + 1);
        i := i + 1;
      }
    }

    /** The part from the label NEW_SEG_MSG on. */
    method NewRxTask(maxPduLen: nat, ctx: MsgCtx, ghost count: nat) returns (slot: Option<nat>)
      requires PoolOk(Abs()) && maxPduLen == count * SegSize(ctx.ctl)
      modifies this
      ensures var r := NewTask(old(Abs()), ctx, count); Abs() == r.pool && slot == r.slot
    {
      if idle == [] { return None; }
      var s := idle[0];
      idle := idle[1..];
      tasks := tasks[s := tasks[s].(buf := seq(maxPduLen, _ => 0), ctx := ctx)];
      var segNum := if ctx.ctl then maxPduLen / 8 else maxPduLen / 12;
      assert segNum == count;
      MarkMissing(s, segNum);
      tasks := tasks[s := tasks[s].(blockAck := {})];
      active := active + [s];
      slot := Some(s);
    }

    method RxTaskRequest(maxPduLen: nat, ctx: MsgCtx, ghost count: nat) returns (slot: Option<nat>)
      requires PoolOk(Abs()) && maxPduLen == count * SegSize(ctx.ctl)
      modifies this
      ensures var r := Request(old(Abs()), ctx, count); Abs() == r.pool && slot == r.slot
    {
      hide NewTask;
      var k := FindTask(ctx.src);
      if k < |active| {
        var s := active[k];
        var seqAuthRx, seqAuthStore := AuthKey(ctx), AuthKey(tasks[s].ctx);
        if seqAuthRx > seqAuthStore {
          RxTaskRelease(s);
        } else if seqAuthRx == seqAuthStore {
          return Some(s);
        } else {
          return None;
        }
      }
      slot := NewRxTask(maxPduLen, ctx, count);
    }

    /** Copies the segment into slot s; the single segment of a one-segment message always goes to the front. */
    method StoreSegment(s: nat, ctl: bool, sego: nat, segn: nat, data: seq<byte>)
      requires s < |tasks| && sego * SegSize(ctl) + |data| <= |tasks[s].buf| && (segn == 0 ==> sego == 0)
      modifies this`tasks
      ensures Abs() == old(Abs()).(tasks := old(tasks)[s := Accept(old(tasks)[s], ctl, sego, segn, data)])
    {
      var t := tasks[s];
      if segn == 0 {
        t := t.(notReceived := {}, blockAck := {0}, pduLen := |data|);
        t := t.(buf := Splice(t.buf, 0, data));
      } else {
        t := t.(buf := Splice(t.buf, sego * (if ctl then 8 else 12), data));
        t := t.(notReceived := t.notReceived - {sego});
        t := t.(blockAck := t.blockAck + {sego});
        t := t.(pduLen := t.pduLen + |data|);
      }
      tasks := tasks[s := t];
    }

    /** meshx_lower_trans_receive_seg_msg. The copy is made only where it stays inside the buffer; where the
        C code would leave it, fault is reported instead. */
    method ReceiveSegMsg(ctx0: MsgCtx, p: seq<byte>, len: nat, replayOk: bool)
      returns (ack: Option<Ack>, delivered: Option<Delivery>, fault: bool)
      requires PoolOk(Abs()) && |p| == 20 && len <= (if ctx0.ctl then 12 else 16)
      modifies this
      ensures RxOut(Abs(), ack, delivered, fault) == Receive(old(Abs()), ctx0, p, len, replayOk)
    {
      hide ParseHead, Request, Payload;
      ack, delivered, fault := None, None, false;
      var h := ParseHead(p);
      var ctx := ctx0.(seqAuth := RecoverSeqAuth(h.seqZero, ctx0.sqn));
      if ctx.ctl { ctx := ctx.(opcode := h.opcode); } else { ctx := ctx.(akf := h.akf, aid := h.aid, szmic := h.szmic); }
      var maxPduLen := (h.segn + 1) * (if ctx.ctl then 8 else 12);
      assert ctx == HeadCtx(ctx0, h) && maxPduLen == (h.segn + 1) * SegSize(ctx.ctl);
      var slot := RxTaskRequest(maxPduLen, ctx, h.segn + 1);
      if slot == None { return Some(Ack(ctx, {})), None, false; }
      ack, delivered, fault := AtTask(slot.value, ctx, h, maxPduLen, Payload(p, len, ctx.ctl, h.sego, h.segn), replayOk);
    }

    method AtTask(s: nat, ctx: MsgCtx, h: SegHead, maxPduLen: nat, data: seq<byte>, replayOk: bool)
      returns (ack: Option<Ack>, delivered: Option<Delivery>, fault: bool)
      requires PoolOk(Abs()) && s < |tasks| && maxPduLen == (h.segn + 1) * SegSize(ctx.ctl)
      modifies this
      ensures RxOut(Abs(), ack, delivered, fault) == AtSlot(old(Abs()), s, ctx, h.sego, h.segn, data, replayOk)
    {
      hide Store, RxRelease;
      ack, delivered, fault := None, None, false;
      var t := tasks[s];
      if (ctx.ctl && t.ctx.opcode != ctx.opcode)
         || (!ctx.ctl && (t.ctx.akf != ctx.akf || t.ctx.aid != ctx.aid || t.ctx.szmic != ctx.szmic))
         || |t.buf| != maxPduLen
      {
        RxTaskRelease(s);
        return Some(Ack(ctx, {})), None, false;
      }
      if t.notReceived == {} { return Some(Ack(ctx, t.blockAck)), None, false; }
      if h.sego !in t.notReceived { return; }
      ack, delivered, fault := StoreAndFinish(s, ctx, h.sego, h.segn, data, replayOk);
    }

    method StoreAndFinish(s: nat, ctx: MsgCtx, sego: nat, segn: nat, data: seq<byte>, replayOk: bool)
      returns (ack: Option<Ack>, delivered: Option<Delivery>, fault: bool)
      requires PoolOk(Abs()) && s < |tasks|
      modifies this
      ensures RxOut(Abs(), ack, delivered, fault) == Store(old(Abs()), s, ctx, sego, segn, data, replayOk)
    {
      hide Accept;
      ack, delivered, fault := None, None, false;
      var at := if segn == 0 then 0 else sego;
      if segn == 0 && !replayOk {
        RxTaskRelease(s);
        return Some(Ack(ctx, {})), None, false;
      }
      if at * SegSize(ctx.ctl) + |data| > |tasks[s].buf| { return None, None, true; }
      StoreSegment(s, ctx.ctl, at, segn, data);
      if tasks[s].notReceived != {} { return; }
      if !replayOk {
        RxTaskRelease(s);
        return Some(Ack(ctx, {})), None, false;
      }
      ack := Some(Ack(ctx, tasks[s].blockAck));
      if tasks[s].pduLen > |tasks[s].buf| { fault := true; return; }
      delivered := Some(Delivery(ctx.(seg := true), tasks[s].buf[..tasks[s].pduLen]));
    }
  }
}
