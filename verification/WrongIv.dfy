// A message context that takes its IV index from meshx_iv_index_get instead of meshx_iv_index_tx_get: exactly when
// that endangers nonce freshness. No layer below the caller checks or corrects the index.

module WrongIv {
  import opened Bytes
  import opened Mesh
  import opened Segments
  import opened IvIndex
  import opened TxNode
  import opened Scheduler
  import opened Messages
  import opened Freshness
  import opened Recovery

  // ---------- while the pending flag is clear, finishing tasks leaves the IV state alone ----------

  lemma {:induction false} FinishKeepsIv(n: Node, s: nat)
    requires NodeOk(n) && s < |n.tasks| && !n.iv.pending
    ensures Finish(n, s).iv == n.iv
    decreases |n.pending|, 0
  {
    var n1 := Release(n, s);
    var k := FirstRunnable(n1, 0);
    if k < |n1.pending| { StartKeepsIv(TakePending(n1, k), n1.pending[k]); }
  }

  lemma {:induction false} StartKeepsIv(n: Node, s: nat)
    requires NodeOk(n) && s < |n.tasks| && !n.iv.pending
    ensures StartTask(n, s).iv == n.iv
    decreases |n.pending|, 1
  {
    var sent := SendFrom(Activate(n, s), s, 0);
    if !sent.ok { FinishKeepsIv(sent.node, s); }
  }

  lemma SendKeepsIv(n: Node, ctx: MsgCtx, pdu: seq<byte>)
    requires NodeOk(n) && !n.iv.pending
    ensures SendMessage(n, ctx, pdu).iv == n.iv
  {
    hide StartTask, SegPdu;
    var c := WithNumber(n, ctx);
    if pdu != [] && IsValidAddress(ctx.dst) && NeedsSegments(c, |pdu|) {
      var w := c.(seg := true);
      StoreKeepsIv(PutToUse(n, w, SeqAuthUse(w, pdu)), w, pdu);
    }
  }

  lemma StoreKeepsIv(n: Node, ctx: MsgCtx, pdu: seq<byte>)
    requires NodeOk(n) && !n.iv.pending
    ensures StoreMessage(n, ctx, pdu).iv == n.iv
  {
    if n.idle != [] {
      var t := TxTask(ctx, pdu, Bits(SegCount(|pdu|, ctx.ctl)), {}, 0);
      StartKeepsIv(n.(idle := n.idle[1..], tasks := n.tasks[n.idle[0] := t]), n.idle[0]);
    }
  }

  // ---------- every stored message can be cancelled ----------

  function Stored(n: Node): nat { |n.active| + |n.pending| }

  lemma {:induction false} FinishShrinks(n: Node, s: nat)
    requires Sched(n) && s in n.active
    ensures Stored(Finish(n, s)) < Stored(n)
    decreases |n.pending|, 0
  {
    ReleaseSched(n, s);
    var c := ReleaseCut(n, s);
    var n1 := Release(n, s);
    var k := FirstRunnable(n1, 0);
    if k < |n1.pending| {
      TakeReady(n1, k, Dst(n, s));
      StartShrinks(TakePending(n1, k), n1.pending[k]);
    }
  }

  lemma {:induction false} StartShrinks(n: Node, s: nat)
    requires Ready(n, s)
    ensures Stored(StartTask(n, s)) <= Stored(n) + 1
    decreases |n.pending|, 1
  {
    ActivateSched(n, s);
    var a := Activate(n, s);
    var sent := SendFrom(a, s, 0);
    OnlySendsSched(a, sent.node, s);
    if !sent.ok {
      assert sent.node.active[|n.active|] == s;
      FinishShrinks(sent.node, s);
    }
  }

  /** An acknowledgement that names no segment cancels the first active message. */
  lemma CancelFirst(n: Node) returns (e: Step)
    requires Ok(n) && n.active != [] && !n.iv.pending
    ensures e.AckArrives? && Enabled(n, e) && Ok(Do(n, e)) && Do(n, e).iv == n.iv && Stored(Do(n, e)) < Stored(n)
  {
    var s := n.active[0];
    e := AckArrives(SeqZero(n.tasks[s].ctx.seqAuth), {});
    assert AckedSlot(n, SeqZero(n.tasks[s].ctx.seqAuth), 0) == Some(s);
    DoGood(n, e);
    DoSched(n, e);
    FinishKeepsIv(n, s);
    FinishShrinks(n, s);
    hide Finish;
    assert Do(n, e) == Finish(n, s);
  }

  lemma {:induction false} CancelAll(n: Node) returns (es: seq<Step>)
    requires Ok(n) && !n.iv.pending
    ensures Quiet(es) && Legal(n, es) && Ok(Exec(n, es)) && Exec(n, es).iv == n.iv && Exec(n, es).active == []
    decreases Stored(n)
  {
    hide Ok, Do, Stored;
    OkFacts(n);
    if n.active == [] {
      es := [];
    } else {
      var e := CancelFirst(n);
      var rest := CancelAll(Do(n, e));
      Prepend(n, e, rest);
      es := [e] + rest;
    }
  }

  lemma OkFacts(n: Node)
    requires Ok(n)
    ensures NodeOk(n) && IvValid(n.iv)
  {
  }

  /** An idle node In Progress returns to Normal by its clock alone, with its counters cleared. */
  lemma {:induction false} TicksToNormal(n: Node) returns (es: seq<Step>)
    requires Ok(n) && n.active == [] && n.iv.state.InProgress? && !n.iv.pending
    ensures Quiet(es) && Legal(n, es) && Ok(Exec(n, es))
    ensures Exec(n, es) == Cleared(n).(iv := n.iv.(state := Normal, tick := 0))
    decreases TICK_144H - n.iv.tick
  {
    var e := ClockTick;
    DoGood(n, e);
    DoSched(n, e);
    var m := Do(n, e);
    var rest: seq<Step>;
    if n.iv.tick + 1 >= TICK_144H {
      rest := [];
      assert m == Cleared(n).(iv := n.iv.(state := Normal, tick := 0));
      assert Exec(m, []) == m;
    } else {
      rest := TicksToNormal(m);
      assert Cleared(m).(iv := m.iv.(state := Normal, tick := 0)) == Cleared(n).(iv := n.iv.(state := Normal, tick := 0));
    }
    hide Ok, Do;
    Prepend(n, e, rest);
    es := [e] + rest;
  }

  // ---------- the exact condition ----------

  /** Some continuation brings the counter to a number used under the IV index while the node is In Progress for it. */
  lemma IndexComesRound(m: Node, i: nat) returns (es: seq<Step>)
    requires Ok(m) && m.iv.state.InProgress? && !m.iv.pending && i < |m.log|
    requires OwnSource(m, m.log[i].src) && m.log[i].iv == m.iv.index && m.log[i].sqn < SEQ_MAX
    ensures Quiet(es) && Legal(m, es) && ComesNext(Exec(m, es), i) && Exec(m, es).log[i] == m.log[i]
  {
    var a := CancelAll(m);
    var m1 := Exec(m, a);
    RunGood(m, a);
    var b := TicksToNormal(m1);
    var m2 := Exec(m1, b);
    assert m2.log[i] == m.log[i] && OwnSource(m2, m.log[i].src) && Next(m2, m.log[i].src) == 0;
    var c := RaiseCounter(m2, m.log[i].src, m.log[i].sqn);
    RunGood(m2, c);
    hide Ok, Good, Sched;
    QuietAppend(m, a, b);
    QuietAppend(m, a + b, c);
    es := (a + b) + c;
  }

  /** What the send of a context under the IV index itself does while the node is In Progress. */
  lemma WrongIndexRepeats(n: Node, ctx: MsgCtx, pdu: seq<byte>) returns (up: seq<Step>, ack: seq<Step>, probe: seq<Step>)
    requires Ok(n) && !n.iv.pending && n.iv.state.InProgress? && Enabled(n, Send(ctx, pdu)) && UsesNumber(n, ctx, pdu)
    requires ctx.iv == n.iv.index && SentNumber(n, ctx, |pdu|) < SEQ_MAX
    ensures var m := Do(n, Send(ctx, pdu));
            && IvValid(m.iv) && Legal(m, up) && Quiet(up)
            && Legal(Exec(m, up), ack) && Quiet(ack) && !NoReuse(Exec(Exec(m, up), ack).log)
            && Legal(Exec(m, up), probe) && Guarded(Exec(m, up), probe)
            && (pdu != [] && IsValidAddress(ctx.dst) ==>
                  if Splits(ctx, pdu) then !MessagesFresh(Exec(Exec(m, up), probe).log) else !FramesFresh(Exec(Exec(m, up), ack).log))
  {
    var e := Send(ctx, pdu);
    var m := Do(n, e);
    DoGood(n, e);
    DoSched(n, e);
    SendKeepsIv(n, ctx, pdu);
    FirstDraw(n, ctx, pdu);
    assert ctx.src < 0x1_0000;
    hide Good, Sched, Do, SendMessage, Enabled, UsesNumber;
    up := IndexComesRound(m, |n.log|);
    ack := AckRepeats(Exec(m, up), |n.log|);
    probe := MessageRepeats(Exec(m, up), |n.log|);
  }

  /** From a state that any guarded run leads to, with the pending flag clear, send a message whose context took the
      IV index itself, and which is in order otherwise. Numbers stay unrepeated in every guarded continuation if and
      only if the node is in Normal state, where the index and the transmit IV are the same, or the message is refused
      before it uses a number. */
  lemma IndexInContextIsSafeIffNormal(n: Node, ctx: MsgCtx, pdu: seq<byte>)
    requires Ok(n) && Fresh(n) && !n.iv.pending && Enabled(n, Send(ctx, pdu))
    requires ctx.iv == n.iv.index && SentNumber(n, ctx, |pdu|) < SEQ_MAX
    requires ctx.ctl ==> Spare(n, ctx.src, ctx.iv, ControlNumber(ctx, |pdu|))
    ensures var m := Do(n, Send(ctx, pdu));
            && IvValid(m.iv)
            && ((forall es | Legal(m, es) && Guarded(m, es) :: NoReuse(Exec(m, es).log)) <==>
                n.iv.state.Normal? || !UsesNumber(n, ctx, pdu))
  {
    var e := Send(ctx, pdu);
    var m := Do(n, e);
    DoGood(n, e);
    hide Good, Sched, SendMessage, Enabled, UsesNumber, Spare;
    if n.iv.state.Normal? || !UsesNumber(n, ctx, pdu) {
      RightIndexFresh(n, ctx, pdu);
      forall es | Legal(m, es) && Guarded(m, es) ensures NoReuse(Exec(m, es).log) { RunFresh(m, es); }
    } else {
      var up, ack, _ := WrongIndexRepeats(n, ctx, pdu);
      QuietAppend(m, up, ack);
      QuietGuarded(m, up + ack);
    }
  }

  lemma RightIndexFresh(n: Node, ctx: MsgCtx, pdu: seq<byte>)
    requires Ok(n) && Fresh(n) && Enabled(n, Send(ctx, pdu)) && ctx.iv == n.iv.index
    requires ctx.ctl ==> Spare(n, ctx.src, ctx.iv, ControlNumber(ctx, |pdu|))
    requires n.iv.state.Normal? || !UsesNumber(n, ctx, pdu)
    ensures Fresh(Do(n, Send(ctx, pdu))) && Sched(Do(n, Send(ctx, pdu)))
  {
    DoSched(n, Send(ctx, pdu));
    hide Sched, SendMessage;
    if n.iv.state.Normal? { DoFresh(n, Send(ctx, pdu)); } else { UnusedIsIdle(n, ctx, pdu); }
  }

  /** The same for each kind of nonce. For a message sent whole, network nonces stay fresh in every guarded continuation
      if and only if the node is in Normal state; for a segmented one, the messages' own nonces. */
  lemma IndexOnAirIsSafeIffNormal(n: Node, ctx: MsgCtx, pdu: seq<byte>)
    requires Ok(n) && Fresh(n) && !n.iv.pending && Enabled(n, Send(ctx, pdu)) && UsesNumber(n, ctx, pdu)
    requires ctx.iv == n.iv.index && SentNumber(n, ctx, |pdu|) < SEQ_MAX
    requires ctx.ctl ==> Spare(n, ctx.src, ctx.iv, ControlNumber(ctx, |pdu|))
    requires pdu != [] && IsValidAddress(ctx.dst)
    ensures var m := Do(n, Send(ctx, pdu));
            && IvValid(m.iv)
            && if Splits(ctx, pdu) then
                 (forall es | Legal(m, es) && Guarded(m, es) :: MessagesFresh(Exec(m, es).log)) <==> n.iv.state.Normal?
               else (forall es | Legal(m, es) && Guarded(m, es) :: FramesFresh(Exec(m, es).log)) <==> n.iv.state.Normal?
  {
    var e := Send(ctx, pdu);
    var m := Do(n, e);
    DoGood(n, e);
    hide Good, Sched, SendMessage, Enabled, UsesNumber, Spare;
    if n.iv.state.Normal? {
      RightIndexFresh(n, ctx, pdu);
      forall es | Legal(m, es) && Guarded(m, es) ensures MessagesFresh(Exec(m, es).log) && FramesFresh(Exec(m, es).log) { RunFresh(m, es); }
    } else {
      var up, ack, probe := WrongIndexRepeats(n, ctx, pdu);
      QuietAppend(m, up, ack);
      QuietGuarded(m, up + ack);
      QuietGuarded(m, up);
      ExecAppend(m, up, probe);
    }
  }
}
