// One segment at a reassembly pool, whatever it is: exactly when it leaves every buffer unharmed and every task
// consistent.

module RxTight {
  import opened Bytes
  import opened Mesh
  import opened Segments
  import opened RxNode
  import opened Scheduler
  import opened RxPools

  // ---------- one task under arbitrary segments ----------

  function Segn(t: RxTask): nat { |t.buf| / SegSize(t.ctx.ctl) }

  /** Octets in the full segments held, and in all of them if the last one is d octets long. */
  function HeldFull(held: set<nat>, n: nat, size: nat): nat { |held - {n - 1}| * size }

  predicate LengthOk(pduLen: nat, held: set<nat>, n: nat, size: nat) {
    HeldFull(held, n, size) <= pduLen <= HeldFull(held, n, size) + (if n - 1 in held then size else 0)
  }

  /** The acknowledged and the missing segments partition the message's segments, and the length is that of
      the segments held: full ones, and whatever the last one was. */
  predicate Tight(t: RxTask) {
    var n, size := Segn(t), SegSize(t.ctx.ctl);
    && 1 <= n && |t.buf| == n * size
    && t.blockAck <= Bits(n)
    && if n == 1 && t.blockAck == {} then 0 in t.notReceived
       else t.notReceived == Bits(n) - t.blockAck && LengthOk(t.pduLen, t.blockAck, n, size)
  }

  lemma {:induction false} BitsSize(k: nat)
    ensures |Bits(k)| == k
  {
    if k > 0 {
      BitsSize(k - 1);
      assert k - 1 !in Bits(k - 1);
    }
  }

  lemma {:induction false} SubsetSize(a: set<nat>, b: set<nat>)
    requires a <= b
    ensures |a| <= |b|
    decreases |a|
  {
    if a != {} {
      var x :| x in a;
      SubsetSize(a - {x}, b - {x});
    }
  }

  lemma HeldFits(held: set<nat>, n: nat, size: nat)
    requires n >= 1 && held <= Bits(n)
    ensures HeldFull(held, n, size) <= (n - 1) * size
  {
    var full := held - {n - 1};
    assert full <= Bits(n - 1) by { assert forall i :: i in full ==> i in Bits(n); }
    SubsetSize(full, Bits(n - 1));
    BitsSize(n - 1);
    hide Bits;
    MulMonotone(|full|, n - 1, size);
  }

  lemma RefilledTight(t: RxTask, c: MsgCtx, count: nat)
    requires Usable(t, count) && 1 <= count
    ensures Tight(Refilled(t, c, count)) && Segn(Refilled(t, c, count)) == count
  {
    var r := Refilled(t, c, count);
    assert |r.buf| / SegSize(c.ctl) == count;
    assert 0 in Bits(count);
    assert r.blockAck - {count - 1} == {};
  }

  lemma LenAfter(a: set<nat>, n: nat, i: nat, size: nat, len: nat, d: nat)
    requires i !in a && i < n && LengthOk(len, a, n, size) && d <= size && (i < n - 1 ==> d == size)
    ensures LengthOk(len + d, a + {i}, n, size)
  {
    if i == n - 1 {
      assert (a + {i}) - {n - 1} == a - {n - 1};
    } else {
      assert (a + {i}) - {n - 1} == (a - {n - 1}) + {i};
      assert (|a - {n - 1}| + 1) * size == |a - {n - 1}| * size + size;
    }
  }

  /** Any segment the routine stores stays inside the buffer and keeps the task tight; so does its PDU. */
  lemma StoreTight(t: RxTask, sego: nat, n: nat, data: seq<byte>)
    requires Tight(t) && n == Segn(t) && sego in t.notReceived
    requires |data| <= SegSize(t.ctx.ctl) && (sego != n - 1 && n != 1 ==> |data| == SegSize(t.ctx.ctl))
    ensures var at := if n == 1 then 0 else sego;
            && at * SegSize(t.ctx.ctl) + |data| <= |t.buf|
            && var r := Accept(t, t.ctx.ctl, at, n - 1, data);
               Tight(r) && r.ctx == t.ctx && |r.buf| == |t.buf| && r.pduLen <= |r.buf|
  {
    hide HeldFull;
    if n == 1 { SingleTight(t, data); } else { OneOfManyTight(t, sego, n, data); }
  }

  lemma SingleTight(t: RxTask, data: seq<byte>)
    requires Tight(t) && Segn(t) == 1 && |data| <= SegSize(t.ctx.ctl)
    ensures var r := Accept(t, t.ctx.ctl, 0, 0, data);
            Tight(r) && r.ctx == t.ctx && |r.buf| == |t.buf| && r.pduLen <= |r.buf|
  {
    var r := Accept(t, t.ctx.ctl, 0, 0, data);
    assert Bits(1) == {0};
    assert r.blockAck - {0} == {};
  }

  lemma OneOfManyTight(t: RxTask, sego: nat, n: nat, data: seq<byte>)
    requires Tight(t) && n == Segn(t) > 1 && sego in t.notReceived
    requires |data| <= SegSize(t.ctx.ctl) && (sego != n - 1 ==> |data| == SegSize(t.ctx.ctl))
    ensures sego * SegSize(t.ctx.ctl) + |data| <= |t.buf|
    ensures var r := Accept(t, t.ctx.ctl, sego, n - 1, data);
            Tight(r) && r.ctx == t.ctx && |r.buf| == |t.buf| && r.pduLen <= |r.buf|
  {
    hide HeldFull, Splice;
    var size := SegSize(t.ctx.ctl);
    assert sego in Bits(n);
    assert (sego + 1) * size <= n * size;
    LenAfter(t.blockAck, n, sego, size, t.pduLen, |data|);
    var r := Accept(t, t.ctx.ctl, sego, n - 1, data);
    assert r.blockAck <= Bits(n) && r.notReceived == Bits(n) - r.blockAck;
    HeldFits(r.blockAck, n, size);
    assert (n - 1) * size + size == n * size;
  }

  // ---------- the pool under arbitrary segments ----------

  ghost predicate TightPool(p: RxPool) {
    Shaped(p) && forall k :: 0 <= k < |p.active| ==> Tight(p.tasks[p.active[k]])
  }

  function Head(c: MsgCtx, pdu: seq<byte>): MsgCtx
    requires |pdu| >= 4
  {
    HeadCtx(c, ParseHead(pdu))
  }

  lemma ReleaseTight(p: RxPool, s: nat)
    requires TightPool(p) && s in p.active
    ensures s < |p.tasks| && TightPool(RxRelease(p, s))
  {
    hide Tight;
    ReleaseShape(p, s);
    var r := RxRelease(p, s);
    forall k | 0 <= k < |r.active| ensures Tight(r.tasks[r.active[k]]) {
      var i :| 0 <= i < |p.active| && p.active[i] == r.active[k];
    }
  }

  lemma FillTight(p: RxPool, s: nat, t: RxTask)
    requires TightPool(p) && s in p.active && s < |p.tasks| && t.ctx == p.tasks[s].ctx && Tight(t)
    ensures var q := p.(tasks := p.tasks[s := t]); TightPool(q) && TightPool(RxRelease(q, s))
  {
    hide Tight;
    FillShape(p, s, t);
    ReleaseTight(p.(tasks := p.tasks[s := t]), s);
  }

  lemma RequestTight(p: RxPool, c: MsgCtx, count: nat)
    requires TightPool(p) && 1 <= count && TakesUsableSlot(p, c, count)
    ensures TightPool(Request(p, c, count).pool)
  {
    RequestShape(p, c, count);
    var r := Request(p, c, count);
    if r.taken && r.slot.Some? { RefilledTight(Leftover(p, r.slot.value), c, count); }
    hide Tight, Request;
    forall k | 0 <= k < |r.pool.active| ensures Tight(r.pool.tasks[r.pool.active[k]]) {
      if r.pool.active[k] in p.active && r.pool.tasks[r.pool.active[k]] == p.tasks[r.pool.active[k]] {
        var i :| 0 <= i < |p.active| && p.active[i] == r.pool.active[k];
      }
    }
  }

  lemma RequestedTask(p: RxPool, c: MsgCtx, count: nat)
    requires TightPool(p) && 1 <= count && TakesUsableSlot(p, c, count)
    ensures var r := Request(p, c, count);
            TightPool(r.pool) && (r.slot.Some? ==> r.slot.value in r.pool.active && Tight(r.pool.tasks[r.slot.value]))
  {
    RequestTight(p, c, count);
    RequestShape(p, c, count);
    hide Request, Tight;
    var r := Request(p, c, count);
    if r.slot.Some? { var k := FirstIndex(r.pool.active, r.slot.value); }
  }

  lemma StoreKeepsTight(p: RxPool, s: nat, c: MsgCtx, sego: nat, segn: nat, data: seq<byte>, replayOk: bool)
    requires TightPool(p) && s in p.active && s < |p.tasks| && Tight(p.tasks[s]) && p.tasks[s].ctx.ctl == c.ctl
    requires Segn(p.tasks[s]) == segn + 1 && sego in p.tasks[s].notReceived
    requires |data| <= SegSize(c.ctl) && (sego != segn && segn != 0 ==> |data| == SegSize(c.ctl))
    ensures var r := Store(p, s, c, sego, segn, data, replayOk); TightPool(r.pool) && !r.fault
  {
    hide Tight, Accept, RxRelease, Bits;
    StoreTight(p.tasks[s], sego, segn + 1, data);
    var t := Accept(p.tasks[s], c.ctl, if segn == 0 then 0 else sego, segn, data);
    FillTight(p, s, t);
    ReleaseTight(p, s);
    hide TightPool;
  }

  /** A segment is a request for a slot, then what is done at that slot. */
  lemma ReceiveSteps(p: RxPool, c0: MsgCtx, pdu: seq<byte>, len: nat, replayOk: bool)
    requires PoolOk(p) && |pdu| == 20 && len <= (if c0.ctl then 12 else 16)
    ensures var h, c := ParseHead(pdu), Head(c0, pdu);
            var req := Request(p, c, h.segn + 1);
            && c.ctl == c0.ctl
            && Receive(p, c0, pdu, len, replayOk)
               == if req.slot.None? then RxOut(req.pool, Some(Ack(c, {})), None, false)
                  else AtSlot(req.pool, req.slot.value, c, h.sego, h.segn, Payload(pdu, len, c.ctl, h.sego, h.segn), replayOk)
  {
    hide Request, ParseHead, AtSlot, Payload;
  }

  lemma AtSlotTight(p: RxPool, s: nat, c: MsgCtx, sego: nat, segn: nat, data: seq<byte>, replayOk: bool)
    requires TightPool(p) && s in p.active && s < |p.tasks| && Tight(p.tasks[s]) && p.tasks[s].ctx.ctl == c.ctl
    requires |data| <= SegSize(c.ctl) && (sego != segn && segn != 0 ==> |data| == SegSize(c.ctl))
    ensures var r := AtSlot(p, s, c, sego, segn, data, replayOk); TightPool(r.pool) && !r.fault
  {
    var t := p.tasks[s];
    assert PoolOk(p);
    ReleaseTight(p, s);
    hide *;
    AtSlotCases(p, s, c, sego, segn, data, replayOk);
    if Matches(t, c, segn + 1) {
      MatchingCount(t, c, segn + 1);
      if sego in t.notReceived { StoreKeepsTight(p, s, c, sego, segn, data, replayOk); }
    }
  }

  lemma AtSlotCases(p: RxPool, s: nat, c: MsgCtx, sego: nat, segn: nat, data: seq<byte>, replayOk: bool)
    requires PoolOk(p) && s < |p.tasks|
    ensures var r, t := AtSlot(p, s, c, sego, segn, data, replayOk), p.tasks[s];
            (r.pool == RxRelease(p, s) && !r.fault)
               || (r.pool == p && !r.fault)
               || (Matches(t, c, segn + 1) && sego in t.notReceived && r == Store(p, s, c, sego, segn, data, replayOk))
  {
    hide Matches, Store, RxRelease;
  }

  lemma MatchingCount(t: RxTask, c: MsgCtx, count: nat)
    requires Matches(t, c, count) && t.ctx.ctl == c.ctl
    ensures Segn(t) == count
  {
  }

  // ---------- exactly which segments do no harm ----------

  /** The segment does not take its length from a PDU too short for the four header octets. */
  predicate LengthFits(len: nat, sego: nat, segn: nat) { len >= 4 || (segn != 0 && sego != segn) }

  /** The routine copies the segment into task t. */
  predicate Copies(t: RxTask, c: MsgCtx, sego: nat, segn: nat, replayOk: bool) {
    Matches(t, c, segn + 1) && sego in t.notReceived && (segn != 0 || replayOk)
  }

  /** A control segment may be copied into an access task and the other way round, if they share source, IV index
      and SeqAuth and their buffers are equally long. d octets of it do no harm if they stay inside the buffer and
      either complete a message that replay protection refuses or keep the task's length within its segments. */
  predicate OtherKindFits(t: RxTask, sego: nat, segn: nat, d: nat, replayOk: bool) {
    sego <= segn && ((t.notReceived == {sego} && !replayOk)
                     || LengthOk(t.pduLen + d, t.blockAck + {sego}, Segn(t), SegSize(t.ctx.ctl)))
  }

  predicate TaskTakes(t: RxTask, c: MsgCtx, sego: nat, segn: nat, len: nat, replayOk: bool) {
    Copies(t, c, sego, segn, replayOk) ==>
      LengthFits(len, sego, segn)
      && (t.ctx.ctl == c.ctl || OtherKindFits(t, sego, segn, CopyLen(len, c.ctl, sego, segn), replayOk))
  }

  /** The slot a new message takes is usable, or this first segment is its last one and short enough to hide the
      length left over. */
  predicate SlotFits(t0: RxTask, c: MsgCtx, sego: nat, segn: nat, len: nat) {
    Usable(t0, segn + 1)
    || (t0.notReceived <= Bits(segn + 1) && sego == segn && t0.pduLen + CopyLen(len, c.ctl, sego, segn) <= SegSize(c.ctl))
  }

  /** The segment does no harm to the task it finds, nor does a slot it takes to it. */
  predicate Harmless(p: RxPool, c: MsgCtx, sego: nat, segn: nat, len: nat, replayOk: bool)
    requires PoolOk(p)
  {
    var r := Request(p, c, segn + 1);
    r.slot.Some? ==>
      && TaskTakes(r.pool.tasks[r.slot.value], c, sego, segn, len, replayOk)
      && (r.taken ==> SlotFits(Leftover(p, r.slot.value), c, sego, segn, len))
  }

  lemma CopyLength(len: nat, ctl: bool, sego: nat, segn: nat)
    requires len <= (if ctl then 12 else 16)
    ensures LengthFits(len, sego, segn) ==>
              CopyLen(len, ctl, sego, segn) <= SegSize(ctl)
              && (sego != segn && segn != 0 ==> CopyLen(len, ctl, sego, segn) == SegSize(ctl))
    ensures !LengthFits(len, sego, segn) ==> CopyLen(len, ctl, sego, segn) > SegSize(ctl) && (segn == 0 || sego == segn)
  {
  }

  lemma ShortOverruns(p: RxPool, s: nat, c: MsgCtx, sego: nat, segn: nat, data: seq<byte>, len: nat, replayOk: bool)
    requires PoolOk(p) && s < |p.tasks| && Copies(p.tasks[s], c, sego, segn, replayOk) && !LengthFits(len, sego, segn)
    requires len <= (if c.ctl then 12 else 16) && |data| == CopyLen(len, c.ctl, sego, segn)
    ensures AtSlot(p, s, c, sego, segn, data, replayOk).fault
  {
    CopyLength(len, c.ctl, sego, segn);
    hide CopyLen, Accept, RxRelease;
  }

  /** A segment of the other kind fills a task of at least two segments of either size. */
  lemma OtherKindCounts(t: RxTask, c: MsgCtx, segn: nat)
    requires Tight(t) && Matches(t, c, segn + 1) && t.ctx.ctl != c.ctl
    ensures Segn(t) >= 2 && segn >= 1 && |t.buf| == (segn + 1) * SegSize(c.ctl) == Segn(t) * SegSize(t.ctx.ctl)
  {
  }

  lemma OtherKindTask(t: RxTask, c: MsgCtx, sego: nat, segn: nat, data: seq<byte>)
    requires Tight(t) && Matches(t, c, segn + 1) && t.ctx.ctl != c.ctl && sego in t.notReceived && sego <= segn
    requires |data| <= SegSize(c.ctl)
    ensures sego * SegSize(c.ctl) + |data| <= |t.buf|
    ensures var u := Accept(t, c.ctl, sego, segn, data);
            && u.ctx == t.ctx && |u.buf| == |t.buf| && u.notReceived == t.notReceived - {sego}
            && (Tight(u) <==> LengthOk(t.pduLen + |data|, t.blockAck + {sego}, Segn(t), SegSize(t.ctx.ctl)))
            && (Tight(u) ==> u.pduLen <= |u.buf|)
  {
    OtherKindCounts(t, c, segn);
    hide HeldFull, Splice;
    var n, size := Segn(t), SegSize(t.ctx.ctl);
    assert (sego + 1) * SegSize(c.ctl) <= (segn + 1) * SegSize(c.ctl);
    var u := Accept(t, c.ctl, sego, segn, data);
    assert sego in Bits(n) && u.blockAck <= Bits(n) && u.notReceived == Bits(n) - u.blockAck;
    HeldFits(u.blockAck, n, size);
    assert (n - 1) * size + size == n * size;
  }

  lemma OtherKindSafeIff(p: RxPool, s: nat, c: MsgCtx, sego: nat, segn: nat, data: seq<byte>, replayOk: bool)
    requires TightPool(p) && s in p.active && s < |p.tasks| && Tight(p.tasks[s]) && p.tasks[s].ctx.ctl != c.ctl
    requires Copies(p.tasks[s], c, sego, segn, replayOk)
    requires |data| <= SegSize(c.ctl) && (sego != segn && segn != 0 ==> |data| == SegSize(c.ctl))
    ensures var r := AtSlot(p, s, c, sego, segn, data, replayOk);
            TightPool(r.pool) && !r.fault <==> OtherKindFits(p.tasks[s], sego, segn, |data|, replayOk)
  {
    var t := p.tasks[s];
    OtherKindCounts(t, c, segn);
    hide Tight, TightPool, Accept, RxRelease, LengthOk, Segn, AtSlot;
    if sego > segn {
      PastTheEnd(p, s, c, sego, segn, data, replayOk);
    } else {
      OtherKindTask(t, c, sego, segn, data);
      CopiedInto(p, s, c, sego, segn, data, replayOk);
      TightIsTightBut(p, s);
      StoredTightIff(p, s, Accept(t, c.ctl, sego, segn, data));
      assert t.notReceived - {sego} == {} <==> t.notReceived == {sego};
      hide Copies;
    }
  }

  lemma PastTheEnd(p: RxPool, s: nat, c: MsgCtx, sego: nat, segn: nat, data: seq<byte>, replayOk: bool)
    requires PoolOk(p) && s < |p.tasks| && Copies(p.tasks[s], c, sego, segn, replayOk) && sego > segn >= 1 && data != []
    ensures AtSlot(p, s, c, sego, segn, data, replayOk).fault
  {
    assert sego * SegSize(c.ctl) >= (segn + 1) * SegSize(c.ctl);
    hide Accept, RxRelease;
  }

  /** A copy inside the buffer, and what follows it. */
  lemma CopiedInto(p: RxPool, s: nat, c: MsgCtx, sego: nat, segn: nat, data: seq<byte>, replayOk: bool)
    requires PoolOk(p) && s < |p.tasks| && Copies(p.tasks[s], c, sego, segn, replayOk)
    requires segn >= 1 && sego * SegSize(c.ctl) + |data| <= |p.tasks[s].buf|
    ensures var r, u := AtSlot(p, s, c, sego, segn, data, replayOk), Accept(p.tasks[s], c.ctl, sego, segn, data);
            var q := p.(tasks := p.tasks[s := u]);
            if u.notReceived == {} && !replayOk then r.pool == RxRelease(q, s) && !r.fault
            else
              && r.pool == q && (r.fault <==> u.notReceived == {} && u.pduLen > |u.buf|)
              && r.delivered == (if u.notReceived != {} || r.fault then None
                                 else Some(Delivery(c.(seg := true), u.buf[..u.pduLen])))
  {
    hide Accept, RxRelease, Matches;
  }

  /** Every active task but perhaps the one in slot s is tight. */
  ghost predicate TightBut(p: RxPool, s: nat) {
    Shaped(p) && s in p.active && forall k :: 0 <= k < |p.active| && p.active[k] != s ==> Tight(p.tasks[p.active[k]])
  }

  lemma TightIsTightBut(p: RxPool, s: nat)
    requires TightPool(p) && s in p.active
    ensures TightBut(p, s)
  {
  }

  /** Putting task u into slot s. */
  lemma StoredTightIff(p: RxPool, s: nat, u: RxTask)
    requires TightBut(p, s) && s < |p.tasks| && u.ctx == p.tasks[s].ctx
    ensures var q := p.(tasks := p.tasks[s := u]);
            (TightPool(q) <==> Tight(u)) && TightPool(RxRelease(q, s))
  {
    hide Tight;
    var q := p.(tasks := p.tasks[s := u]);
    FillShape(p, s, u);
    ReleaseShape(q, s);
    var r := RxRelease(q, s);
    forall k | 0 <= k < |r.active| ensures Tight(r.tasks[r.active[k]]) {
      var i :| 0 <= i < |q.active| && q.active[i] == r.active[k];
      assert r.active[k] != s;
    }
    var k := FirstIndex(p.active, s);
    assert q.tasks[q.active[k]] == u;
  }

  lemma AtSlotSafeIff(p: RxPool, s: nat, c: MsgCtx, sego: nat, segn: nat, data: seq<byte>, len: nat, replayOk: bool)
    requires TightPool(p) && s in p.active && s < |p.tasks| && Tight(p.tasks[s])
    requires len <= (if c.ctl then 12 else 16) && |data| == CopyLen(len, c.ctl, sego, segn)
    ensures var r := AtSlot(p, s, c, sego, segn, data, replayOk);
            TightPool(r.pool) && !r.fault <==> TaskTakes(p.tasks[s], c, sego, segn, len, replayOk)
  {
    CopyLength(len, c.ctl, sego, segn);
    assert PoolOk(p);
    hide Tight, TightPool, CopyLen, AtSlot, Matches, OtherKindFits, LengthFits;
    if !Copies(p.tasks[s], c, sego, segn, replayOk) {
      ReleaseTight(p, s);
      NotCopied(p, s, c, sego, segn, data, replayOk);
    } else if !LengthFits(len, sego, segn) {
      ShortOverruns(p, s, c, sego, segn, data, len, replayOk);
    } else if p.tasks[s].ctx.ctl == c.ctl {
      AtSlotTight(p, s, c, sego, segn, data, replayOk);
    } else {
      OtherKindSafeIff(p, s, c, sego, segn, data, replayOk);
    }
  }

  lemma NotCopied(p: RxPool, s: nat, c: MsgCtx, sego: nat, segn: nat, data: seq<byte>, replayOk: bool)
    requires PoolOk(p) && s < |p.tasks| && !Copies(p.tasks[s], c, sego, segn, replayOk)
    ensures var r := AtSlot(p, s, c, sego, segn, data, replayOk); !r.fault && (r.pool == p || r.pool == RxRelease(p, s))
  {
    hide Matches, RxRelease, Accept;
  }

  /** The slot s of p has just been taken for c with leftovers t0 that make it unusable. */
  lemma UnusableSafeIff(p: RxPool, s: nat, t0: RxTask, c: MsgCtx, sego: nat, segn: nat, data: seq<byte>, len: nat, replayOk: bool)
    requires TightBut(p, s) && s < |p.tasks| && p.tasks[s] == Refilled(t0, c, segn + 1) && !Usable(t0, segn + 1)
    requires len <= (if c.ctl then 12 else 16) && |data| == CopyLen(len, c.ctl, sego, segn)
    ensures var o := AtSlot(p, s, c, sego, segn, data, replayOk);
            TightPool(o.pool) && !o.fault <==>
              sego in p.tasks[s].notReceived && LengthFits(len, sego, segn) && SlotFits(t0, c, sego, segn, len)
  {
    var t := p.tasks[s];
    RefilledTask(t0, c, segn + 1);
    UnusableNotTight(t0, c, segn + 1);
    CopyLength(len, c.ctl, sego, segn);
    assert PoolOk(p) && Matches(t, c, segn + 1);
    hide Refilled, Matches, Tight, TightPool, Accept, AtSlot, Usable, CopyLen, TightBut, LengthFits;
    StoredTightIff(p, s, t);
    assert p.(tasks := p.tasks[s := t]) == p;
    if sego !in t.notReceived {
      NothingCopied(p, s, c, sego, segn, data, replayOk);
    } else if !LengthFits(len, sego, segn) {
      ShortOverruns(p, s, c, sego, segn, data, len, replayOk);
    } else if sego > segn {
      PastTheEnd(p, s, c, sego, segn, data, replayOk);
    } else {
      FirstCopySafeIff(p, s, t0, c, sego, segn, data, replayOk);
      hide Copies;
    }
  }

  lemma FirstCopySafeIff(p: RxPool, s: nat, t0: RxTask, c: MsgCtx, sego: nat, segn: nat, data: seq<byte>, replayOk: bool)
    requires TightBut(p, s) && s < |p.tasks| && p.tasks[s] == Refilled(t0, c, segn + 1) && !Usable(t0, segn + 1)
    requires Copies(p.tasks[s], c, sego, segn, replayOk) && sego <= segn && segn >= 1
    requires |data| <= SegSize(c.ctl) && (sego != segn ==> |data| == SegSize(c.ctl))
    ensures var o := AtSlot(p, s, c, sego, segn, data, replayOk);
            TightPool(o.pool) && !o.fault <==>
              t0.notReceived <= Bits(segn + 1) && sego == segn && t0.pduLen + |data| <= SegSize(c.ctl)
  {
    RefilledTask(t0, c, segn + 1);
    assert PoolOk(p);
    hide Refilled, Tight, TightPool, Accept, AtSlot, Usable, TightBut, Bits, Copies;
    FirstCopy(t0, c, sego, segn, data);
    CopiedInto(p, s, c, sego, segn, data, replayOk);
    StoredTightIff(p, s, Accept(p.tasks[s], c.ctl, sego, segn, data));
  }

  /** A slot taken with leftovers that make it unusable. */
  lemma TakenSafeIff(p: RxPool, c: MsgCtx, sego: nat, segn: nat, data: seq<byte>, len: nat, replayOk: bool)
    requires PoolOk(p) && TightPool(p) && len <= (if c.ctl then 12 else 16) && |data| == CopyLen(len, c.ctl, sego, segn)
    requires var r := Request(p, c, segn + 1); r.taken && r.slot.Some? && !Usable(Leftover(p, r.slot.value), segn + 1)
    ensures var r := Request(p, c, segn + 1);
            var o := AtSlot(r.pool, r.slot.value, c, sego, segn, data, replayOk);
            TightPool(o.pool) && !o.fault <==> Harmless(p, c, sego, segn, len, replayOk)
  {
    var n, req := segn + 1, Request(p, c, segn + 1);
    var s, t0 := req.slot.value, Leftover(p, req.slot.value);
    TakenIsTightBut(p, c, n);
    RefilledTask(t0, c, n);
    UnusableNotTight(t0, c, n);
    UnusableSafeIff(req.pool, s, t0, c, sego, segn, data, len, replayOk);
    hide Request, Leftover, Tight, TightPool, AtSlot, CopyLen, TightBut, LengthFits, Bits;
  }

  lemma UnusableNotTight(t0: RxTask, c: MsgCtx, count: nat)
    requires count >= 1 && !Usable(t0, count)
    ensures count >= 2 && !Tight(Refilled(t0, c, count))
  {
    RefilledTask(t0, c, count);
  }

  /** The first segment stored in an unusable slot. */
  lemma FirstCopy(t0: RxTask, c: MsgCtx, sego: nat, segn: nat, data: seq<byte>)
    requires !Usable(t0, segn + 1) && sego <= segn && segn >= 1
    requires |data| <= SegSize(c.ctl) && (sego != segn ==> |data| == SegSize(c.ctl))
    ensures sego * SegSize(c.ctl) + |data| <= (segn + 1) * SegSize(c.ctl)
    ensures var u := Accept(Refilled(t0, c, segn + 1), c.ctl, sego, segn, data);
            && u.ctx == c && u.notReceived != {}
            && (Tight(u) <==> t0.notReceived <= Bits(segn + 1) && sego == segn && t0.pduLen + |data| <= SegSize(c.ctl))
  {
    hide Splice, Bits, Refilled;
    var n, size, t := segn + 1, SegSize(c.ctl), Refilled(t0, c, segn + 1);
    RefilledTask(t0, c, n);
    assert (sego + 1) * size <= n * size;
    var u := Accept(t, c.ctl, sego, segn, data);
    AnotherBit(sego, n);
    CutEqual(t0.notReceived, Bits(n), sego);
    FirstLength(t0.pduLen + |data|, sego, n, size);
    assert u.blockAck == {sego} && |u.buf| == n * size && u.notReceived == (t0.notReceived + Bits(n)) - {sego};
    hide LengthOk, Accept;
  }

  lemma AnotherBit(k: nat, n: nat)
    requires n >= 2 && k < n
    ensures k in Bits(n) && {k} <= Bits(n) && (if k == 0 then 1 else 0) in Bits(n) - {k}
  {
  }

  lemma FirstLength(len: nat, k: nat, n: nat, size: nat)
    requires n >= 2 && k < n
    ensures LengthOk(len, {k}, n, size) <==> (if k == n - 1 then len <= size else len == size)
  {
    assert {k} - {n - 1} == if k == n - 1 then {} else {k};
  }

  lemma CutEqual(a: set<nat>, b: set<nat>, x: nat)
    requires x in b
    ensures (a + b) - {x} == b - {x} <==> a <= b
  {
    if (a + b) - {x} == b - {x} {
      forall y | y in a ensures y in b { if y != x { assert y in (a + b) - {x}; } }
    }
  }

  lemma NothingCopied(p: RxPool, s: nat, c: MsgCtx, sego: nat, segn: nat, data: seq<byte>, replayOk: bool)
    requires PoolOk(p) && s < |p.tasks| && Matches(p.tasks[s], c, segn + 1)
    requires p.tasks[s].notReceived != {} && sego !in p.tasks[s].notReceived
    ensures AtSlot(p, s, c, sego, segn, data, replayOk).pool == p
  {
  }

  lemma TakenIsTightBut(p: RxPool, c: MsgCtx, count: nat)
    requires TightPool(p) && count >= 1
    ensures var r := Request(p, c, count);
            r.taken && r.slot.Some? ==> r.slot.value in r.pool.active && TightBut(r.pool, r.slot.value)
                                        && r.pool.tasks[r.slot.value] == Refilled(Leftover(p, r.slot.value), c, count)
  {
    RequestShape(p, c, count);
    TakenIsRefilled(p, c, count);
    hide Tight, Request, Refilled;
    var r := Request(p, c, count);
    forall k | 0 <= k < |r.pool.active| && r.taken && r.slot.Some? && r.pool.active[k] != r.slot.value
      ensures Tight(r.pool.tasks[r.pool.active[k]])
    {
      var i :| 0 <= i < |p.active| && p.active[i] == r.pool.active[k];
    }
  }

  lemma TakenIsRefilled(p: RxPool, c: MsgCtx, count: nat)
    requires PoolOk(p)
    ensures var r := Request(p, c, count);
            r.taken && r.slot.Some? ==> r.pool.tasks[r.slot.value] == Refilled(Leftover(p, r.slot.value), c, count)
  {
  }

  lemma RefilledTask(t0: RxTask, c: MsgCtx, count: nat)
    requires count >= 1
    ensures var t := Refilled(t0, c, count);
            && t.ctx == c && |t.buf| == count * SegSize(c.ctl) && Segn(t) == count && t.blockAck == {}
            && t.notReceived == t0.notReceived + Bits(count) && t.pduLen == t0.pduLen && 0 in t.notReceived
  {
  }

  /** Exactly when a segment of whatever source, kind and length leaves a tight pool tight and every buffer
      unharmed. */
  lemma ArrivalSafeIff(p: RxPool, c0: MsgCtx, pdu: seq<byte>, len: nat, replayOk: bool)
    requires PoolOk(p) && TightPool(p) && |pdu| == 20 && len <= (if c0.ctl then 12 else 16)
    ensures var r, h := Receive(p, c0, pdu, len, replayOk), ParseHead(pdu);
            TightPool(r.pool) && !r.fault <==> Harmless(p, Head(c0, pdu), h.sego, h.segn, len, replayOk)
  {
    hide *;
    var h, c := ParseHead(pdu), Head(c0, pdu);
    ReceiveSteps(p, c0, pdu, len, replayOk);
    var data := Payload(pdu, len, c.ctl, h.sego, h.segn);
    if TakesUsableSlot(p, c, h.segn + 1) {
      FoundSafeIff(p, c, h.sego, h.segn, data, len, replayOk);
    } else {
      UsableOrTaken(p, c, h.segn + 1);
      TakenSafeIff(p, c, h.sego, h.segn, data, len, replayOk);
    }
  }

  lemma UsableOrTaken(p: RxPool, c: MsgCtx, count: nat)
    requires PoolOk(p) && !TakesUsableSlot(p, c, count)
    ensures var r := Request(p, c, count); r.taken && r.slot.Some? && !Usable(Leftover(p, r.slot.value), count)
  {
  }

  lemma FoundSafeIff(p: RxPool, c: MsgCtx, sego: nat, segn: nat, data: seq<byte>, len: nat, replayOk: bool)
    requires PoolOk(p) && TightPool(p) && len <= (if c.ctl then 12 else 16) && |data| == CopyLen(len, c.ctl, sego, segn)
    requires TakesUsableSlot(p, c, segn + 1)
    ensures var r := Request(p, c, segn + 1);
            var o := if r.slot.None? then RxOut(r.pool, Some(Ack(c, {})), None, false)
                     else AtSlot(r.pool, r.slot.value, c, sego, segn, data, replayOk);
            TightPool(o.pool) && !o.fault <==> Harmless(p, c, sego, segn, len, replayOk)
  {
    hide *;
    RequestedTask(p, c, segn + 1);
    var r := Request(p, c, segn + 1);
    HarmlessWhenUsable(p, c, sego, segn, len, replayOk);
    if r.slot.Some? { AtSlotSafeIff(r.pool, r.slot.value, c, sego, segn, data, len, replayOk); }
  }

  lemma HarmlessWhenUsable(p: RxPool, c: MsgCtx, sego: nat, segn: nat, len: nat, replayOk: bool)
    requires PoolOk(p) && TakesUsableSlot(p, c, segn + 1)
    ensures var r := Request(p, c, segn + 1);
            Harmless(p, c, sego, segn, len, replayOk) <==>
              (r.slot.Some? ==> TaskTakes(r.pool.tasks[r.slot.value], c, sego, segn, len, replayOk))
  {
    hide Request, TaskTakes, Usable, CopyLen;
  }
}
