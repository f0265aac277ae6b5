// What a slot left over from an earlier message does to the next one.

module SlotReuse {
  import opened Bytes
  import opened Mesh
  import opened Segments
  import opened RxNode
  import opened Scheduler
  import opened RxPools
  import opened RxTight
  import opened RxTraffic

  function Elems(s: seq<nat>): set<nat> { set i | 0 <= i < |s| :: s[i] }

  /** One arrival of segment k under network number sqn; rest is what lies behind it in the buffer. */
  datatype Heard = Heard(k: nat, sqn: nat, rest: seq<byte>)

  /** A message whose segments arrive: its sender's context and PDU. */
  datatype Msg = Msg(c: MsgCtx, pdu: seq<byte>)

  function Count(m: Msg): nat { SegCount(|m.pdu|, m.c.ctl) }

  predicate MsgOk(m: Msg) { Fits(m.c) && m.pdu != [] && Count(m) <= 0x20 }

  predicate HeardOk(m: Msg, x: Heard) {
    x.k < Count(m) && x.sqn <= SEQ_MAX && InWindow(x.sqn, m.c.seqAuth) && |SegPdu(m.c, m.pdu, x.k)| + |x.rest| == 20
  }

  function EventOf(m: Msg, x: Heard): RxEvent
    requires HeardOk(m, x)
  {
    var f := SegPdu(m.c, m.pdu, x.k);
    Arrives(NetCtx(m.c.(sqn := x.sqn)), f + x.rest, |f|, true)
  }

  /** The message's context as the receiver reads it from that arrival. */
  function View(m: Msg, sqn: nat): MsgCtx {
    var n := NetCtx(m.c.(sqn := sqn)).(seqAuth := m.c.seqAuth);
    if m.c.ctl then n.(opcode := m.c.opcode) else n.(akf := m.c.akf, aid := if m.c.akf then m.c.aid else 0, szmic := m.c.szmic)
  }

  lemma HeardReads(m: Msg, x: Heard)
    requires MsgOk(m) && HeardOk(m, x)
    ensures var e, n, d := EventOf(m, x), Count(m), SegData(m.pdu, m.c.ctl, x.k);
            && |e.p| == 20 && 4 <= e.len <= (if e.c.ctl then 12 else 16)
            && ParseHead(e.p).sego == x.k && ParseHead(e.p).segn == n - 1 && Head(e.c, e.p) == View(m, x.sqn)
            && Payload(e.p, e.len, m.c.ctl, x.k, n - 1) == d
  {
    var f, e := SegPdu(m.c, m.pdu, x.k), EventOf(m, x);
    SegDataLen(m.pdu, m.c.ctl, x.k);
    SegPduParses(m.c, m.pdu, x.k);
    WindowRecovers(m.c.seqAuth, x.sqn);
    LongPayload(e.p, e.len, m.c.ctl, x.k, Count(m) - 1);
    hide SegPdu, SegData, Payload;
    assert e.p[0] == f[0] && e.p[1..4] == f[1..4] && e.p[4..e.len] == f[4..];
  }

  predicate AllHeard(m: Msg, xs: seq<Heard>) { forall i :: 0 <= i < |xs| ==> HeardOk(m, xs[i]) }

  function Events(m: Msg, xs: seq<Heard>): (es: seq<RxEvent>)
    requires AllHeard(m, xs)
  {
    if xs == [] then [] else [EventOf(m, xs[0])] + Events(m, xs[1..])
  }

  function Indices(xs: seq<Heard>): set<nat> {
    if xs == [] then {} else {xs[0].k} + Indices(xs[1..])
  }

  /** Some event of the run hands up exactly these octets under this key. */
  predicate HandsUp(p: RxPool, es: seq<RxEvent>, k: Key, data: seq<byte>)
    requires Runs(p, es)
    decreases |es|
  {
    es != [] && (var r := Handle(p, es[0]);
                 (r.delivered.Some? && KeyOf(r.delivered.value.ctx) == k && r.delivered.value.data == data)
                 || HandsUp(r.pool, es[1..], k, data))
  }

  lemma {:induction false} HeardRuns(p: RxPool, m: Msg, xs: seq<Heard>)
    requires PoolOk(p) && MsgOk(m) && AllHeard(m, xs)
    ensures Runs(p, Events(m, xs))
    decreases |xs|
  {
    if xs != [] {
      HeardReads(m, xs[0]);
      hide EventOf, Handle;
      HeardRuns(Handle(p, EventOf(m, xs[0])).pool, m, xs[1..]);
      assert Events(m, xs)[1..] == Events(m, xs[1..]);
    }
  }

  // ---------- a message of several segments ----------

  /** Task t reassembles m in a slot that held t0 and has taken the segments in held. */
  ghost predicate Filling(t: RxTask, m: Msg, t0: RxTask, held: set<nat>) {
    && (exists q :: t.ctx == View(m, q)) && |t.buf| == Count(m) * SegSize(m.c.ctl) && held <= Bits(Count(m))
    && t.blockAck == held && t.notReceived == (t0.notReceived + Bits(Count(m))) - held
    && t.pduLen == t0.pduLen + HeldLen(m.pdu, m.c.ctl, held, Count(m))
    && (Usable(t0, Count(m)) ==> Holds(t, m.c.ctl, m.pdu))
  }

  lemma FillingFacts(t: RxTask, m: Msg, t0: RxTask, held: set<nat>, sqn: nat)
    requires Filling(t, m, t0, held)
    ensures t.ctx.src == View(m, sqn).src && AuthKey(t.ctx) == AuthKey(View(m, sqn)) && Matches(t, View(m, sqn), Count(m))
  {
  }

  lemma StartsFilling(m: Msg, t0: RxTask, sqn: nat)
    requires MsgOk(m)
    ensures Filling(Refilled(t0, View(m, sqn), Count(m)), m, t0, {})
  {
    HeldLenNone(m.pdu, m.c.ctl, Count(m));
    if Usable(t0, Count(m)) { RefilledHolds(t0, View(m, sqn), m.pdu); }
    RefilledTask(t0, View(m, sqn), Count(m));
    hide Holds, SegCount;
  }

  lemma FillsMore(t: RxTask, m: Msg, t0: RxTask, held: set<nat>, k: nat)
    requires MsgOk(m) && Count(m) > 1 && Filling(t, m, t0, held) && k < Count(m) && k !in held
    ensures k in t.notReceived && k * SegSize(m.c.ctl) + |SegData(m.pdu, m.c.ctl, k)| <= |t.buf|
    ensures Filling(Accept(t, m.c.ctl, k, Count(m) - 1, SegData(m.pdu, m.c.ctl, k)), m, t0, held + {k})
  {
    SegPlace(m.pdu, m.c.ctl, k);
    HeldLenAdds(m.pdu, m.c.ctl, held, k, Count(m));
    if Usable(t0, Count(m)) { AcceptHolds(t, m.c.ctl, m.pdu, k); }
    hide SegData, SegCount, Splice, Holds, HeldLen;
    var u := Accept(t, m.c.ctl, k, Count(m) - 1, SegData(m.pdu, m.c.ctl, k));
    assert u.notReceived == (t0.notReceived + Bits(Count(m))) - (held + {k});
  }

  /** Slot s of p is filling up with m. */
  ghost predicate SlotFilling(p: RxPool, s: nat, m: Msg, t0: RxTask, held: set<nat>) {
    Shaped(p) && s in p.active && s < |p.tasks| && Filling(p.tasks[s], m, t0, held)
  }

  /** One segment at the slot: it is held afterwards; what is handed up is as long as the leftover length and the
      message together, and exactly the message if the slot was usable and this was its last segment. */
  lemma SegmentAtSlot(p: RxPool, s: nat, m: Msg, t0: RxTask, held: set<nat>, k: nat, sqn: nat)
    requires MsgOk(m) && Count(m) > 1 && SlotFilling(p, s, m, t0, held) && k < Count(m)
    ensures var r := AtSlot(p, s, View(m, sqn), k, Count(m) - 1, SegData(m.pdu, m.c.ctl, k), true);
            && r.pool.active == p.active && SlotFilling(r.pool, s, m, t0, held + {k})
            && (r.delivered.Some? ==>
                  k !in held && held + {k} == Bits(Count(m)) && t0.notReceived <= Bits(Count(m))
                  && |r.delivered.value.data| == t0.pduLen + |m.pdu|)
            && (Usable(t0, Count(m)) && k !in held && held + {k} == Bits(Count(m)) ==>
                  r.delivered == Some(Delivery(View(m, sqn).(seg := true), m.pdu)))
  {
    var t, c, n, d := p.tasks[s], View(m, sqn), Count(m), SegData(m.pdu, m.c.ctl, k);
    FillingFacts(t, m, t0, held, sqn);
    if k in held {
      hide Filling, Matches, SegData;
      NotMissing(p, s, m, t0, held, k, sqn);
      assert held + {k} == held;
    } else {
      FillsMore(t, m, t0, held, k);
      var u := Accept(t, m.c.ctl, k, n - 1, d);
      if u.notReceived == {} { FullLength(u, m, t0, held + {k}); } else { NotFull(u, m, t0, held + {k}); }
      hide Filling, Matches, SegData, Accept, Count, Shaped, Usable;
      FillShape(p, s, u);
      CopiedInto(p, s, c, k, n - 1, d, true);
    }
  }

  lemma NotMissing(p: RxPool, s: nat, m: Msg, t0: RxTask, held: set<nat>, k: nat, sqn: nat)
    requires PoolOk(p) && s < |p.tasks| && Filling(p.tasks[s], m, t0, held) && k in held && k < Count(m)
    ensures var r := AtSlot(p, s, View(m, sqn), k, Count(m) - 1, SegData(m.pdu, m.c.ctl, k), true);
            r.pool == p && r.delivered.None?
  {
    FillingFacts(p.tasks[s], m, t0, held, sqn);
    hide Matches, SegData, Holds;
  }

  lemma NotFull(u: RxTask, m: Msg, t0: RxTask, held: set<nat>)
    requires MsgOk(m) && Filling(u, m, t0, held) && Count(m) > 1 && u.notReceived != {}
    ensures Usable(t0, Count(m)) ==> held != Bits(Count(m))
  {
  }

  lemma FullLength(u: RxTask, m: Msg, t0: RxTask, held: set<nat>)
    requires MsgOk(m) && Count(m) > 1 && Filling(u, m, t0, held) && u.notReceived == {}
    ensures held == Bits(Count(m)) && t0.notReceived <= Bits(Count(m)) && u.pduLen == t0.pduLen + |m.pdu|
    ensures Usable(t0, Count(m)) ==> u.pduLen <= |u.buf| && u.buf[..u.pduLen] == m.pdu
  {
    forall i | i in Bits(Count(m)) ensures i in held { assert i !in u.notReceived; }
    HeldLenAll(m.pdu, m.c.ctl, held, Count(m));
    SegBounds(|m.pdu|, m.c.ctl, Count(m) - 1);
    if Usable(t0, Count(m)) { CompleteTask(u, m.c.ctl, m.pdu); }
    hide Holds;
  }

  /** A later segment finds the slot. */
  lemma NextSegment(p: RxPool, s: nat, m: Msg, t0: RxTask, held: set<nat>, x: Heard)
    requires MsgOk(m) && SlotFilling(p, s, m, t0, held) && HeardOk(m, x)
    ensures Accepts(p, EventOf(m, x))
    ensures Handle(p, EventOf(m, x))
            == AtSlot(p, s, View(m, x.sqn), x.k, Count(m) - 1, SegData(m.pdu, m.c.ctl, x.k), true)
  {
    var e, c := EventOf(m, x), View(m, x.sqn);
    HeardReads(m, x);
    FillingFacts(p.tasks[s], m, t0, held, x.sqn);
    ReceiveSteps(p, e.c, e.p, e.len, true);
    ActiveIsFound(p, s, c, Count(m));
    hide *;
    HandleReceives(p, e.c, e.p, e.len);
    assert e == Arrives(e.c, e.p, e.len, true) by { EventShape(m, x); }
  }

  lemma EventShape(m: Msg, x: Heard)
    requires HeardOk(m, x)
    ensures var e := EventOf(m, x); e == Arrives(e.c, e.p, e.len, true)
  {
  }

  lemma HandleReceives(p: RxPool, c: MsgCtx, pdu: seq<byte>, len: nat)
    requires PoolOk(p) && |pdu| == 20 && len <= (if c.ctl then 12 else 16)
    ensures Accepts(p, Arrives(c, pdu, len, true)) && Handle(p, Arrives(c, pdu, len, true)) == Receive(p, c, pdu, len, true)
  {
  }

  lemma ActiveIsFound(p: RxPool, s: nat, c: MsgCtx, count: nat)
    requires Shaped(p) && s in p.active && s < |p.tasks|
    requires p.tasks[s].ctx.src == c.src && AuthKey(p.tasks[s].ctx) == AuthKey(c)
    ensures Request(p, c, count) == Requested(p, Some(s), false)
  {
    var k := FirstIndex(p.active, s);
    var f := FindSource(p, c.src, 0);
    assert f < |p.active|;
    assert p.tasks[p.active[f]].ctx.src == p.tasks[p.active[k]].ctx.src;
  }

  predicate Gives(r: RxOut, k: Key, data: seq<byte>) {
    r.delivered.Some? && KeyOf(r.delivered.value.ctx) == k && r.delivered.value.data == data
  }

  lemma HandsUpCons(p: RxPool, e: RxEvent, es: seq<RxEvent>, k: Key, data: seq<byte>)
    requires Accepts(p, e) && Runs(Handle(p, e).pool, es)
    ensures Runs(p, [e] + es)
    ensures HandsUp(p, [e] + es, k, data) <==> Gives(Handle(p, e), k, data) || HandsUp(Handle(p, e).pool, es, k, data)
  {
    hide Accepts, Handle;
    assert ([e] + es)[0] == e && ([e] + es)[1..] == es;
  }

  lemma SegmentGives(p: RxPool, s: nat, m: Msg, t0: RxTask, held: set<nat>, k: nat, sqn: nat)
    requires MsgOk(m) && Count(m) > 1 && SlotFilling(p, s, m, t0, held) && k < Count(m)
    ensures var r := AtSlot(p, s, View(m, sqn), k, Count(m) - 1, SegData(m.pdu, m.c.ctl, k), true);
            && SlotFilling(r.pool, s, m, t0, held + {k})
            && (Gives(r, KeyOf(m.c), m.pdu) <==> Usable(t0, Count(m)) && k !in held && held + {k} == Bits(Count(m)))
  {
    SegmentAtSlot(p, s, m, t0, held, k, sqn);
    hide SlotFilling, AtSlot, SegData, Bits, SegCount;
    if t0.notReceived <= Bits(Count(m)) && !Usable(t0, Count(m)) { WrongLength(t0, m); }
    assert KeyOf(View(m, sqn).(seg := true)) == KeyOf(m.c);
  }

  /** From a slot that holds some segments on: the message is handed up if and only if the slot was usable and
      some segment is still to come. */
  lemma {:induction false} RestDelivers(p: RxPool, s: nat, m: Msg, t0: RxTask, held: set<nat>, xs: seq<Heard>)
    requires MsgOk(m) && Count(m) > 1 && SlotFilling(p, s, m, t0, held) && AllHeard(m, xs)
    requires held + Indices(xs) == Bits(Count(m))
    ensures Runs(p, Events(m, xs))
    ensures HandsUp(p, Events(m, xs), KeyOf(m.c), m.pdu) <==> Usable(t0, Count(m)) && held != Bits(Count(m))
    decreases |xs|
  {
    hide SlotFilling, Handle, EventOf, AtSlot, SegData, Accepts, MsgOk, HeardOk, Usable, Bits, SegCount, Gives;
    if xs == [] {
      assert held == Bits(Count(m));
    } else {
      var x, k := xs[0], xs[0].k;
      assert HeardOk(m, x) && k < Count(m) by { HeardK(m, x); }
      NextSegment(p, s, m, t0, held, x);
      SegmentGives(p, s, m, t0, held, k, x.sqn);
      var r := Handle(p, EventOf(m, x));
      RestDelivers(r.pool, s, m, t0, held + {k}, xs[1..]);
      HandsUpCons(p, EventOf(m, x), Events(m, xs[1..]), KeyOf(m.c), m.pdu);
      if k in held { assert held + {k} == held; }
    }
  }

  lemma HeardK(m: Msg, x: Heard)
    requires HeardOk(m, x)
    ensures x.k < Count(m)
  {
  }

  lemma WrongLength(t0: RxTask, m: Msg)
    requires Count(m) > 1 && t0.notReceived <= Bits(Count(m)) && !Usable(t0, Count(m))
    ensures t0.pduLen + |m.pdu| != |m.pdu|
  {
  }

  // ---------- from the first segment on ----------

  lemma FirstSegment(p: RxPool, m: Msg, x: Heard)
    requires Shaped(p) && MsgOk(m) && HeardOk(m, x)
    requires var r := Request(p, View(m, x.sqn), Count(m)); r.taken && r.slot.Some?
    ensures Accepts(p, EventOf(m, x))
    ensures var r := Request(p, View(m, x.sqn), Count(m));
            && SlotFilling(r.pool, r.slot.value, m, Leftover(p, r.slot.value), {})
            && Handle(p, EventOf(m, x))
               == AtSlot(r.pool, r.slot.value, View(m, x.sqn), x.k, Count(m) - 1, SegData(m.pdu, m.c.ctl, x.k), true)
  {
    var e, c := EventOf(m, x), View(m, x.sqn);
    HeardReads(m, x);
    ReceiveSteps(p, e.c, e.p, e.len, true);
    RequestShape(p, c, Count(m));
    TakenIsRefilled(p, c, Count(m));
    StartsFilling(m, Leftover(p, Request(p, c, Count(m)).slot.value), x.sqn);
    assert PoolOk(p);
    hide Request, Filling, EventOf, View, AtSlot, Refilled, ParseHead, Head, Shaped, Receive, HeardOk, MsgOk, SegData, SegCount, Handle;
    HandleReceives(p, e.c, e.p, e.len);
    assert e == Arrives(e.c, e.p, e.len, true) by { EventShape(m, x); }
  }

  lemma OnlySegment(p: RxPool, s: nat, m: Msg, t0: RxTask, sqn: nat)
    requires MsgOk(m) && Count(m) == 1 && SlotFilling(p, s, m, t0, {})
    ensures Gives(AtSlot(p, s, View(m, sqn), 0, 0, SegData(m.pdu, m.c.ctl, 0), true), KeyOf(m.c), m.pdu)
  {
    FillingFacts(p.tasks[s], m, t0, {}, sqn);
    assert SegData(m.pdu, m.c.ctl, 0) == m.pdu;
    assert 0 in Bits(1);
    hide Matches, Holds, SegData;
    assert Splice(p.tasks[s].buf, 0, m.pdu)[..|m.pdu|] == m.pdu;
  }

  /** A reused slot keeps the length and the missing bits of its previous message. Let every segment of a new message
      arrive, in any order and any number of times, at a receiver that takes such a slot for it: the message is
      handed up, octet for octet, if and only if the slot is usable, that is if the message is a single segment or
      the leftover length is zero and no bit beyond its segments is left. */
  lemma ReusedSlotDeliversIffUsable(p: RxPool, m: Msg, xs: seq<Heard>)
    requires Shaped(p) && MsgOk(m) && AllHeard(m, xs) && Indices(xs) == Bits(Count(m)) && xs != []
    requires var r := Request(p, View(m, xs[0].sqn), Count(m)); r.taken && r.slot.Some?
    ensures Runs(p, Events(m, xs))
    ensures HandsUp(p, Events(m, xs), KeyOf(m.c), m.pdu) <==>
            Usable(Leftover(p, Request(p, View(m, xs[0].sqn), Count(m)).slot.value), Count(m))
  {
    assert PoolOk(p);
    hide SlotFilling, Handle, EventOf, AtSlot, SegData, Accepts, HeardOk, Gives, Request, View, Shaped, Leftover, MsgOk, SegCount;
    var x, k, r := xs[0], xs[0].k, Request(p, View(m, xs[0].sqn), Count(m));
    var s, t0 := r.slot.value, Leftover(p, r.slot.value);
    FirstSegment(p, m, x);
    HeardK(m, x);
    var q := Handle(p, EventOf(m, x)).pool;
    if Count(m) == 1 {
      OnlySegment(r.pool, s, m, t0, x.sqn);
      HeardRuns(q, m, xs[1..]);
    } else {
      SegmentGives(r.pool, s, m, t0, {}, k, x.sqn);
      RestDelivers(q, s, m, t0, {} + {k}, xs[1..]);
    }
    HandsUpCons(p, EventOf(m, x), Events(m, xs[1..]), KeyOf(m.c), m.pdu);
  }

  /** With slots that are reset every message gets through. */
  lemma ResetSlotDelivers(p: RxPool, m: Msg, xs: seq<Heard>)
    requires Shaped(p) && p.reset && MsgOk(m) && AllHeard(m, xs) && Indices(xs) == Bits(Count(m)) && xs != []
    requires var r := Request(p, View(m, xs[0].sqn), Count(m)); r.taken && r.slot.Some?
    ensures Runs(p, Events(m, xs)) && HandsUp(p, Events(m, xs), KeyOf(m.c), m.pdu)
  {
    ReusedSlotDeliversIffUsable(p, m, xs);
  }

  /** And reset is what it takes: a slot that has stored a segment of a message is unusable for a next one of more
      than one segment. */
  lemma SpentSlotIsUnusable(t: RxTask, ctl: bool, pdu: seq<byte>, count: nat)
    requires Holds(t, ctl, pdu) && t.blockAck != {} && count > 1
    ensures !Usable(t, count)
  {
    var i :| i in t.blockAck;
    HeldLenAdds(pdu, ctl, t.blockAck - {i}, i, SegCount(|pdu|, ctl));
    assert t.blockAck - {i} + {i} == t.blockAck;
    SegDataLen(pdu, ctl, i);
  }
}
