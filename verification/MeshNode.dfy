// The module state of a transmitting node and the routines that change it in place, each proved to do
// what the step function of TxNode or IvIndex says.

module MeshNode {
  import opened Bytes
  import opened Mesh
  import opened Segments
  import opened IvIndex
  import opened TxNode

  class NodeState {
    const addr: nat
    const retryLimit: nat
    // mesh/node/meshx_iv_index.c
    var ivIndex: nat
    var ivState: IvState
    var ivTick: nat
    var ivPending: bool
    // mesh/node/meshx_seq.c
    var seqArray: seq<nat>
    // mesh/transport/meshx_lower_trans.c
    var tasks: seq<TxTask>
    var idle: seq<nat>
    var active: seq<nat>
    var pending: seq<nat>
    ghost var log: seq<Draw>

    function IvAbs(): Iv
      reads this
    {
      Iv(ivIndex, ivState, ivTick, ivPending)
    }

    ghost function Abs(): Node
      reads this
    {
      Node(addr, retryLimit, IvAbs(), seqArray, tasks, idle, active, pending, log)
    }

    constructor (addr: nat, retryLimit: nat, elements: nat, taskNum: nat, ivIndex: nat)
      requires ivIndex < 0x1_0000_0000 && addr + elements <= 0x1_0000
      ensures Initial(Abs()) && |tasks| == taskNum && |seqArray| == elements
      ensures this.addr == addr && this.retryLimit == retryLimit && this.ivIndex == ivIndex
    {
      this.addr, this.retryLimit := addr, retryLimit;
      this.ivIndex, ivState, ivTick, ivPending := ivIndex, Normal, 0, false;
      seqArray := seq(elements, _ => 0);
      var none := MsgCtx(0, 0, 0, false, false, false, false, 0, 0, 0, 0, 0);
      tasks := seq(taskNum, _ => TxTask(none, [], {}, {}, 0));
      idle, active, pending, log := Range(taskNum), [], [], [];
    }

    // ---------- sequence numbers ----------

    /** meshx_seq_use */
    method SeqUse(src: nat) returns (q: nat)
      modifies this`seqArray
      ensures Abs() == Taken(old(Abs()), src) && q == Next(old(Abs()), src)
    {
      if !(addr <= src < addr + |seqArray|) { return SEQ_MAX; }
      q := seqArray[src - addr];
      if q != SEQ_MAX { seqArray := seqArray[src - addr := q + 1]; }
    }

    method SeqClear()
      modifies this`seqArray
      ensures Abs() == Cleared(old(Abs()))
    {
      var i := 0;
      while i < |seqArray|
        invariant 0 <= i <= |seqArray| == |old(seqArray)|
        invariant forall k :: 0 <= k < i ==> seqArray[k] == 0
      {
        seqArray := seqArray[i := 0];
        i := i + 1;
      }
      assert seqArray == seq(|seqArray|, _ => 0);
    }

    // ---------- segments ----------

    /** meshx_lower_trans_send_seg_msg */
    method SendSegMsg(s: nat) returns (ok: bool)
      requires s < |tasks|
      modifies this`seqArray, this`tasks, this`log
      ensures var r := SendFrom(old(Abs()), s, 0); Abs() == r.node && ok == r.ok
    {
      hide SendOne, SegPdu;
      var pdu, blockAck, ctl := tasks[s].pdu, tasks[s].blockAck, tasks[s].ctx.ctl;
      var size := if ctl then 8 else 12;
      var segNum := (|pdu| + size - 1) / size;
      var i, dataOffset := 0, 0;
      while i < segNum
        invariant 0 <= i <= segNum && dataOffset == Min(i * size, |pdu|)
        invariant s < |tasks| && tasks[s].pdu == pdu && tasks[s].blockAck == blockAck && tasks[s].ctx.ctl == ctl
        invariant SendFrom(old(Abs()), s, 0) == SendFrom(Abs(), s, i)
        decreases segNum - i
      {
        SegEnd(|pdu|, ctl, i);
        var segLen := if segNum == i + 1 then |pdu| - dataOffset else size;
        if i in blockAck {
          dataOffset := dataOffset + segLen;
          i := i + 1;
          continue;
        }
        ok := SendOneSeg(s, i, segNum, pdu[dataOffset..dataOffset + segLen]);
        if !ok { return; }
        dataOffset := dataOffset + segLen;
        i := i + 1;
      }
      ok := true;
    }

    /** Loop body of the above for a segment not yet acknowledged. */
    method SendOneSeg(s: nat, i: nat, segNum: nat, data: seq<byte>) returns (ok: bool)
      requires s < |tasks| && i < segNum == TaskCount(tasks[s]) && data == SegData(tasks[s].pdu, tasks[s].ctx.ctl, i)
      modifies this`seqArray, this`tasks, this`log
      ensures var r := SendOne(old(Abs()), s, i); Abs() == r.node && ok == r.ok
    {
      hide SegPdu, SegCount, SegData, OnlySends;
      var ctx := tasks[s].ctx;
      ghost var q0 := Next(Abs(), ctx.src);
      ghost var use := if InWindow(q0, ctx.seqAuth) then OnAir(ctx.(sqn := q0), SegPdu(ctx.(sqn := q0), tasks[s].pdu, i))
                       else Refused;
      log := log + [Draw(ctx.src, ctx.iv, q0, use)];
      var q := SeqUse(ctx.src);
      ctx := ctx.(sqn := q);
      tasks := tasks[s := tasks[s].(ctx := ctx)];
      ok := q >= ctx.seqAuth && q - ctx.seqAuth < 0x2000;
      if ok {
        var misc := Misc(!ctx.ctl && ctx.szmic, SeqZero(ctx.seqAuth), i, segNum - 1);
        var frame := [Header(ctx, true)] + BE(misc, 3) + data;
        assert OnAir(ctx, frame) == use by { FrameIs(ctx, old(tasks[s]).pdu, i); }
      }
    }

    // ---------- tasks ----------

    /** meshx_lower_trans_tx_task_release and the check for a deferred IV transition. */
    method Release(s: nat)
      requires s < |tasks|
      modifies this`active, this`idle, this`ivState
      ensures Abs() == TxNode.Release(old(Abs()), s)
    {
      active := Without(active, s);
      idle := idle + [s];
      if ivPending { ivState := Normal; }
    }

    /** meshx_lower_trans_tx_task_finish */
    method TaskFinish(s: nat)
      requires NodeOk(Abs()) && s < |tasks|
      modifies this
      ensures Abs() == Finish(old(Abs()), s)
      decreases |pending|, 0
    {
      Release(s);
      var k := FindRunnable();
      if k < |pending| {
        var p := pending[k];
        pending := pending[..k] + pending[k + 1..];
        assert Abs() == TakePending(TxNode.Release(old(Abs()), s), k);
        var _ := TaskRun(p);
      }
    }

    /** The scan over pending and active tasks. */
    method FindRunnable() returns (k: nat)
      requires NodeOk(Abs())
      ensures k == FirstRunnable(Abs(), 0)
    {
      k := 0;
      while k < |pending|
        invariant 0 <= k <= |pending|
        invariant FirstRunnable(Abs(), 0) == FirstRunnable(Abs(), k)
      {
        var blocked := IsDstActive(tasks[pending[k]].ctx.dst);
        if !blocked { return; }
        k := k + 1;
      }
    }

    method IsDstActive(dst: nat) returns (found: bool)
      requires NodeOk(Abs())
      ensures found <==> DstActive(Abs(), dst)
    {
      found := false;
      var i := 0;
      while i < |active|
        invariant 0 <= i <= |active|
        invariant found <==> exists k :: 0 <= k < i && tasks[active[k]].ctx.dst == dst
      {
        if tasks[active[i]].ctx.dst == dst { found := true; }
        i := i + 1;
      }
    }

    /** meshx_lower_trans_tx_task_run, given that the retry timer could be created. */
    method TaskRun(s: nat) returns (ok: bool)
      requires NodeOk(Abs()) && s < |tasks|
      modifies this
      ensures Abs() == StartTask(old(Abs()), s) && ok == SendFrom(Activate(old(Abs()), s), s, 0).ok
      decreases |pending|, 1
    {
      active := active + [s];
      assert Abs() == Activate(old(Abs()), s);
      ok := SendSegMsg(s);
      if !ok { TaskFinish(s); }
    }

    /** meshx_lower_trans_tx_task_try */
    method TaskTry(s: nat)
      requires NodeOk(Abs()) && s < |tasks|
      modifies this
      ensures Abs() == TryTask(old(Abs()), s)
    {
      var waits := IsDstActive(tasks[s].ctx.dst);
      if waits {
        pending := pending + [s];
      } else {
        var _ := TaskRun(s);
      }
    }

    method ResendTask(s: nat)
      requires NodeOk(Abs()) && s < |tasks|
      modifies this
      ensures Abs() == Resend(old(Abs()), s)
    {
      var _ := SendSegMsg(s);
      var ctx := tasks[s].ctx;
      if !(ctx.sqn >= ctx.seqAuth && ctx.sqn - ctx.seqAuth < 0x2000) { TaskFinish(s); }
    }

    /** meshx_lower_trans_handle_tx_timeout */
    method HandleTxTimeout(s: nat)
      requires NodeOk(Abs()) && s in active
      modifies this
      ensures Abs() == Timeout(old(Abs()), s)
    {
      tasks := tasks[s := tasks[s].(retryTimes := (tasks[s].retryTimes + 1) % 256)];
      assert Abs() == WithTask(old(Abs()), s, Retried(old(tasks[s])));
      if tasks[s].retryTimes > retryLimit { TaskFinish(s); } else { ResendTask(s); }
    }

    method FindBySeqZero(seqZero: nat) returns (r: Option<nat>)
      requires NodeOk(Abs())
      ensures r == AckedSlot(Abs(), seqZero, 0)
    {
      var i := 0;
      while i < |active|
        invariant 0 <= i <= |active|
        invariant AckedSlot(Abs(), seqZero, 0) == AckedSlot(Abs(), seqZero, i)
      {
        if tasks[active[i]].ctx.seqAuth % 0x2000 == seqZero { return Some(active[i]); }
        i := i + 1;
      }
      r := None;
    }

    /** meshx_lower_trans_recv_block_ack */
    method RecvBlockAck(seqZero: nat, block: set<nat>)
      requires NodeOk(Abs())
      modifies this
      ensures Abs() == ReceiveAck(old(Abs()), seqZero, block)
    {
      hide Resend, Finish;
      var found := FindBySeqZero(seqZero);
      if found.None? { return; }
      var s := found.value;
      if tasks[s].segBits == block || block == {} {
        TaskFinish(s);
      } else {
        var t := tasks[s].(retryTimes := (tasks[s].retryTimes + 1) % 256);
        if t.retryTimes > retryLimit {
          tasks := tasks[s := t];
          assert Abs() == WithTask(old(Abs()), s, t);
          TaskFinish(s);
        } else {
          tasks := tasks[s := t.(blockAck := block)];
          assert Abs() == WithTask(old(Abs()), s, t.(blockAck := block));
          ResendTask(s);
        }
      }
    }

    /** meshx_lower_trans_is_tx_task_exist */
    method TaskExists(dst: nat, seqAuth: nat) returns (found: bool)
      requires NodeOk(Abs())
      ensures found <==> AlreadySending(Abs(), dst, seqAuth)
    {
      var i := 0;
      while i < |active|
        invariant 0 <= i <= |active|
        invariant forall k :: 0 <= k < i ==> !(tasks[active[k]].ctx.dst == dst && tasks[active[k]].ctx.seqAuth == seqAuth)
      {
        if tasks[active[i]].ctx.dst == dst && tasks[active[i]].ctx.seqAuth == seqAuth { return true; }
        i := i + 1;
      }
      found := false;
    }

    /** meshx_lower_trans_process_seg_msg */
    method ProcessSegMsg(ctx: MsgCtx, pdu: seq<byte>)
      requires NodeOk(Abs())
      modifies this
      ensures Abs() == StoreMessage(old(Abs()), ctx, pdu)
    {
      hide TryTask;
      var size := if ctx.ctl then 8 else 12;
      var segNum := (|pdu| + size - 1) / size;
      if segNum > 0x1F { return; }
      var exists_ := TaskExists(ctx.dst, ctx.seqAuth);
      if exists_ || idle == [] { return; }
      var s := idle[0];
      var segBits: set<nat>, i := {}, 0;
      while i < segNum
        invariant 0 <= i <= segNum && segBits == Bits(i)
      {
        segBits := segBits + {i};
        i := i + 1;
      }
      idle := idle[1..];
      tasks := tasks[s := TxTask(ctx, pdu, segBits, {}, 0)];
      TaskTry(s);
    }

    /** meshx_upper_trans_send, for a PDU that is encrypted already: only the access branch draws a number. */
    method Send(ctx: MsgCtx, pdu: seq<byte>)
      requires NodeOk(Abs())
      modifies this
      ensures Abs() == SendMessage(old(Abs()), ctx, pdu)
    {
      UpperThenLower(Abs(), ctx, pdu);
      if ctx.ctl {
        if |pdu| > 256 { return; }
        LowerTransSend(ctx, pdu);
      } else {
        var q := SeqUse(ctx.src);
        LowerTransSend(ctx.(sqn := q, seqAuth := q), pdu);
      }
    }

    /** meshx_lower_trans_send */
    method LowerTransSend(ctx: MsgCtx, pdu: seq<byte>)
      requires NodeOk(Abs())
      modifies this
      ensures Abs() == LowerSend(old(Abs()), ctx, pdu)
    {
      hide StoreMessage;
      if pdu == [] || !IsValidAddress(ctx.dst) {
        if !ctx.ctl { log := log + [Draw(ctx.src, ctx.iv, ctx.sqn, Refused)]; }
        return;
      }
      if ctx.seg || |pdu| > (if ctx.ctl then 11 else 15) {
        var w := ctx.(seg := true);
        ghost var known := log;
        if !ctx.ctl || Storable(Abs(), w, |pdu|) { known := known + [Draw(w.src, w.iv, w.seqAuth, SeqAuthUse(w, pdu))]; }
        if !Storable(Abs(), w, |pdu|) { RefusedIsIdle(Abs(), w, pdu); }
        log := known;
        ProcessSegMsg(w, pdu);
      } else {
        log := log + [Draw(ctx.src, ctx.iv, ctx.sqn, FrameUse(ctx, pdu))];
      }
    }

    /** meshx_lower_trans_seg_ack: the context draws its own number; a refused acknowledgement has used it. */
    method SegAck(src: nat, dst: nat, ttl: nat, seqZero: nat, block: set<nat>)
      requires NodeOk(Abs()) && IvValid(IvAbs())
      modifies this
      ensures Abs() == SendAck(old(Abs()), src, dst, ttl, seqZero, block)
    {
      assert |AckPdu(seqZero, block)| == 6;
      hide AckPdu;
      var iv := IvTxGet();
      var q := SeqUse(src);
      if !IsValidAddress(dst) { log := log + [Draw(src, iv, q, Refused)]; }
      LowerTransSend(MsgCtx(src, dst, ttl, true, false, false, false, 0, 0, iv, q, 0), AckPdu(seqZero, block));
    }

    // ---------- IV index ----------

    method IvTxGet() returns (iv: nat)
      requires IvValid(IvAbs())
      ensures iv == TxIv(IvAbs())
    {
      iv := if ivState.InProgress? then ivIndex - 1 else ivIndex;
    }

    method IsBusy() returns (busy: bool)
      ensures busy == Busy(Abs())
    {
      busy := |active| > 0;
    }

    /** meshx_iv_index_async_handle_timeout */
    method IvTimeout()
      modifies this`ivState, this`ivTick, this`ivPending, this`seqArray
      ensures Abs() == IvTick(old(Abs()))
    {
      if ivTick < 24192 { ivTick := ivTick + 1; }
      if ivTick >= 432 && ivState.InProgress? {
        var busy := IsBusy();
        if busy {
          ivPending := true;
        } else {
          ivState := Normal;
          ivTick := 0;
          SeqClear();
        }
      }
    }

    /** meshx_iv_index_update */
    method IvUpdate(index: nat, state: IvState) returns (outcome: Outcome)
      requires index < ivIndex + 0x8000_0000
      modifies this`ivIndex, this`ivState, this`ivTick, this`ivPending, this`seqArray
      ensures Abs() == IvMessage(old(Abs()), index, state)
      ensures outcome == Update(old(IvAbs()), index, state, Busy(old(Abs()))).outcome
    {
      hide NodeOk;
      if ivIndex > index { return Invalid; }
      var distance := index - ivIndex;
      if distance > 42 { return TooFar; }
      distance := distance * 2 + (if state.Normal? then 1 else 0) - (if ivState.Normal? then 1 else 0);
      if distance <= 0 { return Done; }
      if ivTick < distance * 288 { return TooEarly; }
      var busy := IsBusy();
      ivIndex := index;
      if distance == 1 {
        if state.Normal? {
          if busy {
            ivPending := true;
          } else {
            ivState := state;
            ivTick := 0;
            SeqClear();
          }
        } else {
          ivState := state;
        }
      } else {
        ivState := state;
        ivTick := 288;
        SeqClear();
      }
      outcome := Done;
    }
  }

  lemma FrameIs(ctx: MsgCtx, pdu: seq<byte>, i: nat)
    requires i < SegCount(|pdu|, ctx.ctl)
    ensures [Header(ctx, true)] + BE(Misc(!ctx.ctl && ctx.szmic, SeqZero(ctx.seqAuth), i, SegCount(|pdu|, ctx.ctl) - 1), 3) + SegData(pdu, ctx.ctl, i)
            == SegPdu(ctx, pdu, i)
  {
  }

  /** What meshx_lower_trans_send does with a context that has its numbers. */
  function LowerSend(n: Node, c: MsgCtx, pdu: seq<byte>): Node
    requires NodeOk(n)
  {
    if pdu == [] || !IsValidAddress(c.dst) then
      if c.ctl then n else n.(log := n.log + [Draw(c.src, c.iv, c.sqn, Refused)])
    else if NeedsSegments(c, |pdu|) then
      var w := c.(seg := true);
      if c.ctl && !Storable(n, w, |pdu|) then n
      else StoreMessage(n.(log := n.log + [Draw(w.src, w.iv, w.seqAuth, SeqAuthUse(w, pdu))]), w, pdu)
    else n.(log := n.log + [Draw(c.src, c.iv, c.sqn, FrameUse(c, pdu))])
  }

  lemma RefusedIsIdle(n: Node, c: MsgCtx, pdu: seq<byte>)
    requires NodeOk(n) && !Storable(n, c, |pdu|)
    ensures StoreMessage(n, c, pdu) == n
  {
  }

  /** A control message above 256 octets would need too many segments in any case. */
  lemma UpperThenLower(n: Node, ctx: MsgCtx, pdu: seq<byte>)
    requires NodeOk(n)
    ensures SendMessage(n, ctx, pdu) == LowerSend(if ctx.ctl then n else Taken(n, ctx.src), WithNumber(n, ctx), pdu)
    ensures ctx.ctl && |pdu| > 256 ==> SendMessage(n, ctx, pdu) == n
  {
    hide StoreMessage;
  }

  lemma SegEnd(len: nat, ctl: bool, i: nat)
    requires i < SegCount(len, ctl)
    ensures i * SegSize(ctl) < len
    ensures i + 1 < SegCount(len, ctl) <==> (i + 1) * SegSize(ctl) < len
  {
  }
}
