// What holds of a reassembly pool over whole runs, whatever segments arrive from whatever nodes.

module RxTraffic {
  import opened Bytes
  import opened Mesh
  import opened Segments
  import opened TxNode
  import opened RxNode
  import opened Scheduler
  import opened RxPools
  import opened RxTight

  datatype RxEvent =
    | Arrives(c: MsgCtx, p: seq<byte>, len: nat, replayOk: bool)
    | Expires(slot: nat)

  predicate Accepts(p: RxPool, e: RxEvent) {
    match e
    case Arrives(c, pdu, len, _) => PoolOk(p) && |pdu| == 20 && len <= (if c.ctl then 12 else 16)
    case Expires(s) => PoolOk(p) && s in p.active
  }

  function Handle(p: RxPool, e: RxEvent): (r: RxOut)
    requires Accepts(p, e)
    ensures PoolOk(r.pool)
  {
    match e
    case Arrives(c, pdu, len, replayOk) => Receive(p, c, pdu, len, replayOk)
    case Expires(s) => assert s < |p.tasks|; RxOut(RxRelease(p, s), None, None, false)
  }

  // ---------- at most one delivery per task ----------

  predicate Delivers(r: RxOut, t: RxTask) {
    r.delivered.Some? && r.delivered.value.ctx.src == t.ctx.src && AuthKey(r.delivered.value.ctx) == AuthKey(t.ctx)
  }

  predicate SameTask(t: RxTask, u: RxTask) { t.ctx.src == u.ctx.src && AuthKey(t.ctx) == AuthKey(u.ctx) }

  /** While slot s keeps its task, only the segment that completes the task hands it up. */
  lemma DeliveryFillsTask(p: RxPool, e: RxEvent, s: nat)
    requires Shaped(p) && Accepts(p, e) && s in p.active && s < |p.tasks|
    requires s in Handle(p, e).pool.active && s < |Handle(p, e).pool.tasks|
    requires SameTask(p.tasks[s], Handle(p, e).pool.tasks[s])
    ensures var t, r := p.tasks[s], Handle(p, e);
            && (Delivers(r, t) ==> t.notReceived != {} && r.pool.tasks[s].notReceived == {})
            && (t.notReceived == {} ==> r.pool.tasks[s].notReceived == {})
  {
    if e.Arrives? { ArrivalFillsTask(p, e.c, e.p, e.len, e.replayOk, s); }
  }

  lemma ArrivalFillsTask(p: RxPool, c0: MsgCtx, pdu: seq<byte>, len: nat, replayOk: bool, s: nat)
    requires Shaped(p) && |pdu| == 20 && len <= (if c0.ctl then 12 else 16) && s in p.active && s < |p.tasks|
    requires var q := Receive(p, c0, pdu, len, replayOk).pool;
             s in q.active && s < |q.tasks| && SameTask(p.tasks[s], q.tasks[s])
    ensures var t, r := p.tasks[s], Receive(p, c0, pdu, len, replayOk);
            && (Delivers(r, t) ==> t.notReceived != {} && r.pool.tasks[s].notReceived == {})
            && (t.notReceived == {} ==> r.pool.tasks[s].notReceived == {})
  {
    hide ParseHead, Receive, Request, Payload, AtSlot, RxPartition, OneTaskPerSource, AuthKey, HeadCtx;
    ReceiveSteps(p, c0, pdu, len, replayOk);
    var h, c := ParseHead(pdu), Head(c0, pdu);
    RequestKeeps(p, c, h.segn + 1, s);
    var req := Request(p, c, h.segn + 1);
    if req.slot.Some? {
      AtSlotFills(req.pool, req.slot.value, c, h.sego, h.segn, Payload(pdu, len, c.ctl, h.sego, h.segn), replayOk, s);
      SetSegKeepsKey(c);
    }
  }

  lemma SetSegKeepsKey(c: MsgCtx)
    ensures AuthKey(c.(seg := true)) == AuthKey(c)
  {
  }

  lemma AtSlotFills(p: RxPool, at: nat, c: MsgCtx, sego: nat, segn: nat, data: seq<byte>, replayOk: bool, s: nat)
    requires PoolOk(p) && at < |p.tasks| && s < |p.tasks|
    ensures var r := AtSlot(p, at, c, sego, segn, data, replayOk);
            && |r.pool.tasks| == |p.tasks| && r.pool.tasks[s].ctx == p.tasks[s].ctx
            && (s in r.pool.active ==> s in p.active)
            && (p.tasks[s].notReceived == {} ==> r.pool.tasks[s].notReceived == {})
            && (r.delivered.Some? ==> r.delivered.value.ctx == c.(seg := true)
                                      && p.tasks[at].notReceived != {} && r.pool.tasks[at].notReceived == {})
  {
    hide Splice, Without, Matches;
    if s in RxRelease(p, at).active { WithoutSubset(p.active, at, s); }
    StoreFills(p, at, c, sego, segn, data, replayOk, s);
    hide Store;
  }

  lemma StoreFills(p: RxPool, at: nat, c: MsgCtx, sego: nat, segn: nat, data: seq<byte>, replayOk: bool, s: nat)
    requires PoolOk(p) && at < |p.tasks| && s < |p.tasks|
    ensures var r := Store(p, at, c, sego, segn, data, replayOk);
            && |r.pool.tasks| == |p.tasks| && r.pool.tasks[s].ctx == p.tasks[s].ctx
            && (r.pool.active == p.active || r.pool.active == Without(p.active, at))
            && (p.tasks[s].notReceived == {} ==> r.pool.tasks[s].notReceived == {})
            && (r.delivered.Some? ==> r.delivered.value.ctx == c.(seg := true) && r.pool.tasks[at].notReceived == {})
  {
    hide Splice, Without;
  }

  lemma {:induction false} WithoutSubset(l: seq<nat>, x: nat, y: nat)
    requires y in Without(l, x)
    ensures y in l
  {
    if l != [] && l[0] != x && y != l[0] { WithoutSubset(l[1..], x, y); }
  }

  /** A request for another message leaves slot s alone or takes it away; one for its own message finds it. */
  lemma RequestKeeps(p: RxPool, c: MsgCtx, count: nat, s: nat)
    requires Shaped(p) && s in p.active && s < |p.tasks|
    ensures var r, t := Request(p, c, count), p.tasks[s];
            && (r.slot.Some? ==> r.pool.tasks[r.slot.value].ctx.src == c.src && AuthKey(r.pool.tasks[r.slot.value].ctx) == AuthKey(c))
            && (SameTask(t, r.pool.tasks[s]) && s in r.pool.active ==> r.pool.tasks[s] == t)
            && (c.src == t.ctx.src && AuthKey(c) == AuthKey(t.ctx) ==> r.pool == p && r.slot == Some(s))
  {
    RequestShape(p, c, count);
    var k := FirstIndex(p.active, s);
    var r := Request(p, c, count);
    if s in r.pool.active { var i := FirstIndex(r.pool.active, s); }
  }

  // ---------- runs ----------

  predicate Runs(p: RxPool, es: seq<RxEvent>)
    decreases |es|
  {
    es == [] || (Accepts(p, es[0]) && Runs(Handle(p, es[0]).pool, es[1..]))
  }

  /** The event does no harm; for a segment, RxTight spells out what that takes. */
  predicate Sound(p: RxPool, e: RxEvent)
    requires Accepts(p, e)
  {
    e.Arrives? ==> Harmless(p, Head(e.c, e.p), ParseHead(e.p).sego, ParseHead(e.p).segn, e.len, e.replayOk)
  }

  predicate SoundRun(p: RxPool, es: seq<RxEvent>)
    requires Runs(p, es)
    decreases |es|
  {
    es == [] || (Sound(p, es[0]) && SoundRun(Handle(p, es[0]).pool, es[1..]))
  }

  /** No copy or hand-up leaves a buffer, and before and after every event all tasks are tight. */
  ghost predicate TightRun(p: RxPool, es: seq<RxEvent>)
    requires Runs(p, es)
    decreases |es|
  {
    TightPool(p) && (es != [] ==> !Handle(p, es[0]).fault && TightRun(Handle(p, es[0]).pool, es[1..]))
  }

  /** How often the run hands up t's message. */
  function HandUps(p: RxPool, es: seq<RxEvent>, t: RxTask): nat
    requires Runs(p, es)
    decreases |es|
  {
    if es == [] then 0
    else (if Delivers(Handle(p, es[0]), t) then 1 else 0) + HandUps(Handle(p, es[0]).pool, es[1..], t)
  }

  /** Slot s holds t's message throughout. */
  predicate Keeps(p: RxPool, es: seq<RxEvent>, s: nat, t: RxTask)
    requires Runs(p, es)
    decreases |es|
  {
    && s in p.active && s < |p.tasks| && SameTask(p.tasks[s], t)
    && (es != [] ==> Keeps(Handle(p, es[0]).pool, es[1..], s, t))
  }

  /** One event: no copy or hand-up leaves a task's buffer, the acknowledged and missing bits of every task
      partition its segments, its length is that of the segments held, and each source has at most one task,
      if and only if the event is sound. */
  lemma ReassemblyInvariant(p: RxPool, e: RxEvent)
    requires TightPool(p) && Accepts(p, e)
    ensures TightPool(Handle(p, e).pool) && !Handle(p, e).fault <==> Sound(p, e)
  {
    match e
    case Expires(s) => ReleaseTight(p, s);
    case Arrives(c, pdu, len, replayOk) =>
      ArrivalSafeIff(p, c, pdu, len, replayOk);
      hide Harmless, TightPool;
  }

  /** Whatever segments arrive, from whatever sources, in whatever order: all stays tight and inside its buffers
      if and only if every event is sound where it happens. */
  lemma {:induction false} TightIffSound(p: RxPool, es: seq<RxEvent>)
    requires TightPool(p) && Runs(p, es)
    ensures TightRun(p, es) <==> SoundRun(p, es)
    decreases |es|
  {
    hide Handle, TightPool, Sound;
    if es != [] {
      ReassemblyInvariant(p, es[0]);
      if Sound(p, es[0]) { TightIffSound(Handle(p, es[0]).pool, es[1..]); }
    }
  }

  /** Segments of one source under one IV index and SeqAuth are all control or all access. */
  predicate SameKind(p: RxPool, c: MsgCtx)
    requires PoolOk(p)
  {
    forall k | 0 <= k < |p.active| && p.tasks[p.active[k]].ctx.src == c.src
               && AuthKey(p.tasks[p.active[k]].ctx) == AuthKey(c) :: p.tasks[p.active[k]].ctx.ctl == c.ctl
  }

  /** In particular a segment that is not too short, at a pool that resets its slots and whose task for it, if any,
      is of its kind, is sound: that is all well-formed traffic. */
  lemma RegularIsSound(p: RxPool, c0: MsgCtx, pdu: seq<byte>, len: nat, replayOk: bool)
    requires Shaped(p) && p.reset && |pdu| == 20 && len <= (if c0.ctl then 12 else 16)
    requires LengthFits(len, ParseHead(pdu).sego, ParseHead(pdu).segn) && SameKind(p, Head(c0, pdu))
    ensures Sound(p, Arrives(c0, pdu, len, replayOk))
  {
    var h := ParseHead(pdu);
    RequestedKind(p, Head(c0, pdu), h.segn + 1);
    hide ParseHead, Request, HeadCtx, CopyLen, Matches;
  }

  lemma RequestedKind(p: RxPool, c: MsgCtx, count: nat)
    requires Shaped(p) && SameKind(p, c)
    ensures var r := Request(p, c, count); r.slot.Some? ==> r.pool.tasks[r.slot.value].ctx.ctl == c.ctl
  {
  }

  lemma HandleShaped(p: RxPool, e: RxEvent)
    requires Shaped(p) && Accepts(p, e)
    ensures Shaped(Handle(p, e).pool)
  {
    match e
    case Expires(s) => ReleaseShape(p, s);
    case Arrives(c0, pdu, len, replayOk) => ReceiveShaped(p, c0, pdu, len, replayOk);
  }

  lemma ReceiveShaped(p: RxPool, c0: MsgCtx, pdu: seq<byte>, len: nat, replayOk: bool)
    requires Shaped(p) && |pdu| == 20 && len <= (if c0.ctl then 12 else 16)
    ensures Shaped(Receive(p, c0, pdu, len, replayOk).pool)
  {
    var h, c := ParseHead(pdu), Head(c0, pdu);
    var data := Payload(pdu, len, c.ctl, h.sego, h.segn);
    hide Request, ParseHead, HeadCtx, RxPartition, OneTaskPerSource, Payload, AtSlot;
    RequestShape(p, c, h.segn + 1);
    var req := Request(p, c, h.segn + 1);
    hide Shaped;
    if req.slot.Some? { AtSlotShaped(req.pool, req.slot.value, c, h.sego, h.segn, data, replayOk); }
  }

  lemma AtSlotShaped(p: RxPool, s: nat, c: MsgCtx, sego: nat, segn: nat, data: seq<byte>, replayOk: bool)
    requires Shaped(p) && s in p.active && s < |p.tasks|
    ensures Shaped(AtSlot(p, s, c, sego, segn, data, replayOk).pool)
  {
    hide Shaped, RxRelease, Accept, Matches;
    ReleaseShape(p, s);
    var at := if segn == 0 then 0 else sego;
    if at * SegSize(c.ctl) + |data| <= |p.tasks[s].buf| {
      AcceptContext(p.tasks[s], c.ctl, at, segn, data);
      var t := Accept(p.tasks[s], c.ctl, at, segn, data);
      FillShape(p, s, t);
      ReleaseShape(p.(tasks := p.tasks[s := t]), s);
    }
  }

  lemma AcceptContext(t: RxTask, ctl: bool, sego: nat, segn: nat, data: seq<byte>)
    requires sego * SegSize(ctl) + |data| <= |t.buf|
    ensures Accept(t, ctl, sego, segn, data).ctx == t.ctx
  {
  }

  /** However often its segments are repeated, a reassembly task hands its message up at most once. */
  lemma {:induction false} AtMostOneHandUp(p: RxPool, es: seq<RxEvent>, s: nat, t: RxTask)
    requires Shaped(p) && Runs(p, es) && Keeps(p, es, s, t)
    ensures HandUps(p, es, t) <= (if p.tasks[s].notReceived == {} then 0 else 1)
    decreases |es|
  {
    hide Handle, Shaped;
    if es != [] {
      var q := Handle(p, es[0]).pool;
      assert s in q.active && s < |q.tasks| && SameTask(q.tasks[s], t);
      DeliveryFillsTask(p, es[0], s);
      HandleShaped(p, es[0]);
      AtMostOneHandUp(q, es[1..], s, t);
    }
  }
}
