// The IV update machine inside the node: whatever a node does, its IV state moves by the machine's own events.

module IvNode {
  import opened Bytes
  import opened Mesh
  import opened Segments
  import opened IvIndex
  import opened TxNode
  import opened Scheduler

  /** Finishing a task makes the deferred transition, whatever task is started next. */
  lemma {:induction false} FinishIv(n: Node, s: nat)
    requires NodeOk(n) && s < |n.tasks|
    ensures Finish(n, s).iv == TaskFinished(n.iv)
    decreases |n.pending|, 0
  {
    hide StartTask;
    var n1 := Release(n, s);
    var k := FirstRunnable(n1, 0);
    if k < |n1.pending| { StartIv(TakePending(n1, k), n1.pending[k]); }
  }

  lemma {:induction false} StartIv(n: Node, s: nat)
    requires NodeOk(n) && s < |n.tasks|
    ensures StartTask(n, s).iv == n.iv || StartTask(n, s).iv == TaskFinished(n.iv)
    decreases |n.pending|, 1
  {
    hide Finish;
    var sent := SendFrom(Activate(n, s), s, 0);
    assert OnlySends(Activate(n, s), sent.node, s);
    if !sent.ok { FinishIv(sent.node, s); }
  }

  /** Every step of the node is a clock tick, an update message, a finished task, or nothing to the machine; the ticks and
      messages ask whether any task is active. */
  lemma StepIs(n: Node, e: Step)
    requires NodeOk(n) && IvValid(n.iv) && Enabled(n, e)
    ensures var v := Do(n, e).iv;
            match e
            case ClockTick => v == Apply(n.iv, TickEvent(n.active != []))
            case Beacon(index, state) => v == Apply(n.iv, UpdateEvent(index, state, n.active != []))
            case _ => v == n.iv || v == Apply(n.iv, FinishEvent)
  {
    hide Finish, StartTask, SendFrom, Storable;
    match e
    case Send(c, pdu) => SendIv(n, c, pdu);
    case TimerFires(s) => TimeoutIv(n, s);
    case AckArrives(z, block) => if AckedSlot(n, z, 0).Some? { AckIv(n, z, block, AckedSlot(n, z, 0).value); }
    case _ =>
  }

  lemma SendIv(n: Node, c: MsgCtx, pdu: seq<byte>)
    requires NodeOk(n)
    ensures SendMessage(n, c, pdu).iv == n.iv || SendMessage(n, c, pdu).iv == TaskFinished(n.iv)
  {
    hide Finish, StartTask, SendFrom, Storable, NeedsSegments, Bits, SegCount, Header;
    var d := WithNumber(n, c);
    if pdu != [] && IsValidAddress(c.dst) && NeedsSegments(d, |pdu|) {
      var w := d.(seg := true);
      StoreIv(PutToUse(n, w, SeqAuthUse(w, pdu)), w, pdu);
    }
  }

  lemma StoreIv(n: Node, c: MsgCtx, pdu: seq<byte>)
    requires NodeOk(n)
    ensures StoreMessage(n, c, pdu).iv == n.iv || StoreMessage(n, c, pdu).iv == TaskFinished(n.iv)
  {
    hide Finish, StartTask, SendFrom, Bits, SegCount;
    if Storable(n, c, |pdu|) {
      var t := TxTask(c, pdu, Bits(SegCount(|pdu|, c.ctl)), {}, 0);
      var m := n.(idle := n.idle[1..], tasks := n.tasks[n.idle[0] := t]);
      StartIv(m, n.idle[0]);
    }
  }

  lemma ResendIv(n: Node, s: nat)
    requires NodeOk(n) && s < |n.tasks|
    ensures Resend(n, s).iv == n.iv || Resend(n, s).iv == TaskFinished(n.iv)
    ensures Sched(n) && s in n.active && s !in Resend(n, s).active ==> Resend(n, s).iv == TaskFinished(n.iv)
  {
    hide Finish, SendFrom;
    var n1 := SendFrom(n, s, 0).node;
    assert OnlySends(n, n1, s);
    FinishIv(n1, s);
  }

  lemma TimeoutIv(n: Node, s: nat)
    requires NodeOk(n) && s in n.active
    ensures Timeout(n, s).iv == n.iv || Timeout(n, s).iv == TaskFinished(n.iv)
    ensures Sched(n) && s in n.active && s !in Timeout(n, s).active ==> Timeout(n, s).iv == TaskFinished(n.iv)
  {
    var m := WithTask(n, s, Retried(n.tasks[s]));
    if Sched(n) && s in n.active { WithTaskSched(n, s, Retried(n.tasks[s])); }
    hide Finish, Resend, Sched;
    FinishIv(m, s);
    ResendIv(m, s);
  }

  lemma AckIv(n: Node, z: nat, block: set<nat>, s: nat)
    requires NodeOk(n) && AckedSlot(n, z, 0) == Some(s)
    ensures var r := ReceiveAck(n, z, block);
            && (r.iv == n.iv || r.iv == TaskFinished(n.iv))
            && (Sched(n) && s in n.active && s !in r.active ==> r.iv == TaskFinished(n.iv))
  {
    var t, u := Retried(n.tasks[s]), Retried(n.tasks[s]).(blockAck := block);
    var m, w := WithTask(n, s, t), WithTask(n, s, u);
    assert NodeOk(m) && NodeOk(w) && m.iv == n.iv && w.iv == n.iv && w.active == n.active && s < |n.tasks|;
    if Sched(n) { WithTaskSched(n, s, u); }
    FinishIv(n, s);
    FinishIv(m, s);
    ResendIv(w, s);
    hide Finish, Resend, Sched, WithTask, AckedSlot, NodeOk, Retried, TaskFinished;
  }

  /** A task that its timer or an acknowledgement takes off the active list ends a deferral. */
  lemma FinishedEndsDeferral(n: Node, e: Step, s: nat)
    requires Sched(n) && IvValid(n.iv) && Enabled(n, e) && n.iv.pending && s in n.active && s !in Do(n, e).active
    requires e == TimerFires(s) || (e.AckArrives? && AckedSlot(n, e.seqZero, 0) == Some(s))
    ensures Do(n, e).iv == n.iv.(state := Normal)
  {
    hide Finish, Resend;
    match e
    case TimerFires(_) => TimeoutIv(n, s);
    case AckArrives(z, block) => AckIv(n, z, block, s);
  }

  // ---------- whole runs ----------

  function ClockTicks(es: seq<Step>): nat {
    if es == [] then 0 else (if es[0].ClockTick? then 1 else 0) + ClockTicks(es[1..])
  }

  /** What a node does in any run is a run of the machine with as many ticks. */
  lemma {:induction false} RunIsMachineRun(n: Node, es: seq<Step>) returns (vs: seq<IvEvent>)
    requires NodeOk(n) && IvValid(n.iv) && Legal(n, es)
    ensures Run(n.iv, vs) == Exec(n, es).iv && Ticks(vs) == ClockTicks(es)
    decreases |es|
  {
    vs := [];
    if es != [] {
      var e, m := es[0], Do(n, es[0]);
      StepIs(n, e);
      hide Do, Apply;
      var rest := RunIsMachineRun(m, es[1..]);
      var first :=
        match e
        case ClockTick => [TickEvent(n.active != [])]
        case Beacon(index, state) => [UpdateEvent(index, state, n.active != [])]
        case _ => if m.iv == n.iv then [] else [FinishEvent];
      vs := first + rest;
      if first != [] { assert vs[1..] == rest && vs[0] == first[0]; } else { assert vs == rest; }
    }
  }

  /** So what the machine promises holds of nodes, whatever they send and receive: in Normal state nothing moves the clock
      before a tick count of 96 hours. */
  lemma NodeStaysNormal(n: Node, es: seq<Step>)
    requires NodeOk(n) && IvValid(n.iv) && Legal(n, es) && n.iv.state.Normal? && n.iv.tick + ClockTicks(es) < Hours(96)
    ensures Clock(Exec(n, es).iv) == Clock(n.iv)
  {
    var vs := RunIsMachineRun(n, es);
    NormalStaysForIff(n.iv, ClockTicks(es));
  }

  /** And whatever it does, its clock and transmit IV never go back. */
  lemma NodeClockNeverGoesBack(n: Node, es: seq<Step>)
    requires NodeOk(n) && IvValid(n.iv) && Legal(n, es)
    ensures Clock(n.iv) <= Clock(Exec(n, es).iv) && TxIv(n.iv) <= TxIv(Exec(n, es).iv)
  {
    var vs := RunIsMachineRun(n, es);
    ClockNeverGoesBack(n.iv, vs);
  }
}
