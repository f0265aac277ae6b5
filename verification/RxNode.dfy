// The receiving half of mesh/transport/meshx_lower_trans.c as step functions: the pool of reassembly tasks,
// out-of-order reassembly and block acknowledgements.

module RxNode {
  import opened Bytes
  import opened Mesh
  import opened Segments
  import opened TxNode

  datatype RxTask = RxTask(ctx: MsgCtx, buf: seq<byte>, pduLen: nat, notReceived: set<nat>, blockAck: set<nat>)

  /** reset: a new task starts with length 0 and no missing segments left over, as initialisation leaves every
      slot. The C code does not reset them (reset is false); what that costs is the subject of SlotReuse. */
  datatype RxPool = RxPool(tasks: seq<RxTask>, idle: seq<nat>, active: seq<nat>, reset: bool)

  /** An acknowledgement for the message with this context. */
  datatype Ack = Ack(ctx: MsgCtx, block: set<nat>)

  datatype Delivery = Delivery(ctx: MsgCtx, data: seq<byte>)

  /** fault: the C code would read or write outside the task's buffer. */
  datatype RxOut = RxOut(pool: RxPool, ack: Option<Ack>, delivered: Option<Delivery>, fault: bool)

  predicate PoolOk(p: RxPool) { Below(p.idle, |p.tasks|) && Below(p.active, |p.tasks|) }

  /** The 56-bit number by which messages of one source are ordered. */
  function AuthKey(c: MsgCtx): nat { c.iv * 0x100_0000 + c.seqAuth }

  // ---------- meshx_lower_trans_rx_task_request ----------

  /** Position of the first active task from this source, or |active|. */
  function FindSource(p: RxPool, src: nat, k: nat): (r: nat)
    requires PoolOk(p) && k <= |p.active|
    ensures k <= r <= |p.active|
    ensures forall j :: k <= j < r ==> p.tasks[p.active[j]].ctx.src != src
    ensures r < |p.active| ==> p.tasks[p.active[r]].ctx.src == src
    decreases |p.active| - k
  {
    if k == |p.active| || p.tasks[p.active[k]].ctx.src == src then k else FindSource(p, src, k + 1)
  }

  function RxRelease(p: RxPool, s: nat): (r: RxPool)
    requires s < |p.tasks|
    ensures (PoolOk(p) ==> PoolOk(r)) && r.reset == p.reset
  {
    p.(active := Without(p.active, s), idle := p.idle + [s])
  }

  /** What slot s still holds of its previous message when it is taken for a new one. */
  function Leftover(p: RxPool, s: nat): RxTask
    requires s < |p.tasks|
  {
    if p.reset then p.tasks[s].(pduLen := 0, notReceived := {}) else p.tasks[s]
  }

  /** The slot keeps t's pdu_len and not-received bits; only the acknowledged bits are reset. Fresh heap memory
      is modelled as zero octets. */
  function Refilled(t: RxTask, c: MsgCtx, count: nat): RxTask {
    RxTask(c, seq(count * SegSize(c.ctl), _ => 0), t.pduLen, t.notReceived + Bits(count), {})
  }

  function TakeSlot(p: RxPool, c: MsgCtx, count: nat): (r: RxPool)
    requires PoolOk(p) && p.idle != []
    ensures PoolOk(r)
  {
    var s := p.idle[0];
    RxPool(p.tasks[s := Refilled(Leftover(p, s), c, count)], p.idle[1..], p.active + [s], p.reset)
  }

  /** taken: the slot was idle until now. */
  datatype Requested = Requested(pool: RxPool, slot: Option<nat>, taken: bool)

  function NewTask(p: RxPool, c: MsgCtx, count: nat): (r: Requested)
    requires PoolOk(p)
    ensures PoolOk(r.pool) && r.pool.reset == p.reset && |r.pool.tasks| == |p.tasks| && (r.slot.Some? ==> r.slot.value < |p.tasks|)
  {
    if p.idle == [] then Requested(p, None, false) else Requested(TakeSlot(p, c, count), Some(p.idle[0]), true)
  }

  function Request(p: RxPool, c: MsgCtx, count: nat): (r: Requested)
    requires PoolOk(p)
    ensures PoolOk(r.pool) && r.pool.reset == p.reset && |r.pool.tasks| == |p.tasks| && (r.slot.Some? ==> r.slot.value < |p.tasks|)
  {
    var k := FindSource(p, c.src, 0);
    if k == |p.active| then NewTask(p, c, count)
    else
      var s := p.active[k];
      if AuthKey(c) > AuthKey(p.tasks[s].ctx) then NewTask(RxRelease(p, s), c, count)
      else if AuthKey(c) == AuthKey(p.tasks[s].ctx) then Requested(p, Some(s), false)
      else Requested(p, None, false)
  }

  // ---------- meshx_lower_trans_receive_seg_msg ----------

  /** What the network layer knows about a frame. */
  function NetCtx(c: MsgCtx): MsgCtx {
    MsgCtx(c.src, c.dst, c.ttl, c.ctl, false, false, false, 0, 0, c.iv, c.sqn, 0)
  }

  /** The context once the segment header has been read. */
  function HeadCtx(c: MsgCtx, h: SegHead): MsgCtx {
    var d := c.(seqAuth := RecoverSeqAuth(h.seqZero, c.sqn));
    if c.ctl then d.(opcode := h.opcode) else d.(akf := h.akf, aid := h.aid, szmic := h.szmic)
  }

  predicate Matches(t: RxTask, c: MsgCtx, count: nat) {
    && (if c.ctl then t.ctx.opcode == c.opcode
        else t.ctx.akf == c.akf && t.ctx.aid == c.aid && t.ctx.szmic == c.szmic)
    && |t.buf| == count * SegSize(c.ctl)
  }

  /** Stores segment sego of segn + 1; the single-segment case sets pdu_len, the other adds to it. */
  function Accept(t: RxTask, ctl: bool, sego: nat, segn: nat, data: seq<byte>): RxTask
    requires sego * SegSize(ctl) + |data| <= |t.buf|
  {
    if segn == 0 then
      t.(buf := Splice(t.buf, sego * SegSize(ctl), data), pduLen := |data|, notReceived := {}, blockAck := {0})
    else
      t.(buf := Splice(t.buf, sego * SegSize(ctl), data), pduLen := t.pduLen + |data|,
         notReceived := t.notReceived - {sego}, blockAck := t.blockAck + {sego})
  }

  /** The length of the copy: a full segment, except that the last one is as long as the PDU says, less its four
      header octets in 8 bits, or in 16 for a message of one segment. Below four octets this wraps. */
  function CopyLen(len: nat, ctl: bool, sego: nat, segn: nat): nat {
    if segn == 0 then (len - 4) % 0x1_0000 else if sego == segn then (len - 4) % 0x100 else SegSize(ctl)
  }

  /** What the routine copies. The PDU sits in the network layer's 20-octet buffer; octets read from behind it
      are modelled as zeros. */
  function Payload(p: seq<byte>, len: nat, ctl: bool, sego: nat, segn: nat): (d: seq<byte>)
    requires |p| == 20 && len <= 20
    ensures |d| == CopyLen(len, ctl, sego, segn)
  {
    var k := CopyLen(len, ctl, sego, segn);
    if k <= 16 then p[4..4 + k] else p[4..] + seq(k - 16, _ => 0)
  }

  /** From four octets on nothing wraps. */
  lemma LongPayload(p: seq<byte>, len: nat, ctl: bool, sego: nat, segn: nat)
    requires |p| == 20 && 4 <= len <= (if ctl then 12 else 16)
    ensures var d := Payload(p, len, ctl, sego, segn);
            && d == (if sego == segn || segn == 0 then p[4..len] else p[4..4 + SegSize(ctl)])
            && |d| <= SegSize(ctl) && (sego != segn && segn != 0 ==> |d| == SegSize(ctl))
  {
  }

  /** replayOk stands for the replay protection check made when a message completes. */
  function Receive(pool: RxPool, c0: MsgCtx, p: seq<byte>, len: nat, replayOk: bool): (r: RxOut)
    requires PoolOk(pool) && |p| == 20 && len <= (if c0.ctl then 12 else 16)
    ensures PoolOk(r.pool) && r.pool.reset == pool.reset
  {
    var h := ParseHead(p);
    var c := HeadCtx(c0, h);
    var req := Request(pool, c, h.segn + 1);
    if req.slot.None? then RxOut(req.pool, Some(Ack(c, {})), None, false)
    else AtSlot(req.pool, req.slot.value, c, h.sego, h.segn, Payload(p, len, c.ctl, h.sego, h.segn), replayOk)
  }

  /** The routine once slot s has been found for the segment. */
  function AtSlot(pool: RxPool, s: nat, c: MsgCtx, sego: nat, segn: nat, data: seq<byte>, replayOk: bool): (r: RxOut)
    requires PoolOk(pool) && s < |pool.tasks|
    ensures PoolOk(r.pool) && r.pool.reset == pool.reset
  {
    var t := pool.tasks[s];
    if !Matches(t, c, segn + 1) then RxOut(RxRelease(pool, s), Some(Ack(c, {})), None, false)
    else if t.notReceived == {} then RxOut(pool, Some(Ack(c, t.blockAck)), None, false)
    else if sego !in t.notReceived then RxOut(pool, None, None, false)
    else Store(pool, s, c, sego, segn, data, replayOk)
  }

  function Store(pool: RxPool, s: nat, c: MsgCtx, sego: nat, segn: nat, data: seq<byte>, replayOk: bool): (r: RxOut)
    requires PoolOk(pool) && s < |pool.tasks|
    ensures PoolOk(r.pool) && r.pool.reset == pool.reset
    ensures (r.ack.Some? ==> r.ack.value.ctx == c) && (r.delivered.Some? ==> r.delivered.value.ctx == c.(seg := true))
  {
    var at := if segn == 0 then 0 else sego;
    if segn == 0 && !replayOk then RxOut(RxRelease(pool, s), Some(Ack(c, {})), None, false)
    else if at * SegSize(c.ctl) + |data| > |pool.tasks[s].buf| then RxOut(pool, None, None, true)
    else
      var t := Accept(pool.tasks[s], c.ctl, at, segn, data);
      var stored := pool.(tasks := pool.tasks[s := t]);
      if t.notReceived != {} then RxOut(stored, None, None, false)
      else if !replayOk then RxOut(RxRelease(stored, s), Some(Ack(c, {})), None, false)
      else if t.pduLen > |t.buf| then RxOut(stored, Some(Ack(c, t.blockAck)), None, true)
      else RxOut(stored, Some(Ack(c, t.blockAck)), Some(Delivery(c.(seg := true), t.buf[..t.pduLen])), false)
  }

  // ---------- what one task holds ----------

  /** Octets of the segments in `held` among the first k. */
  function HeldLen(pdu: seq<byte>, ctl: bool, held: set<nat>, k: nat): nat
    requires k <= SegCount(|pdu|, ctl)
  {
    if k == 0 then 0
    else HeldLen(pdu, ctl, held, k - 1) + (if k - 1 in held then |SegData(pdu, ctl, k - 1)| else 0)
  }

  /** The task reassembles this PDU and holds exactly the segments it acknowledges. */
  ghost predicate Holds(t: RxTask, ctl: bool, pdu: seq<byte>) {
    var n := SegCount(|pdu|, ctl);
    && pdu != [] && |t.buf| == n * SegSize(ctl)
    && t.blockAck <= Bits(n)
    && (if n == 1 && t.blockAck == {} then 0 in t.notReceived
        else t.notReceived == Bits(n) - t.blockAck && t.pduLen == HeldLen(pdu, ctl, t.blockAck, n))
    && forall i :: i in t.blockAck ==> t.buf[i * SegSize(ctl)..i * SegSize(ctl) + |SegData(pdu, ctl, i)|] == SegData(pdu, ctl, i)
  }

  lemma SegBounds(len: nat, ctl: bool, i: nat)
    requires i < SegCount(len, ctl)
    ensures i * SegSize(ctl) < len && (i + 1) * SegSize(ctl) <= SegCount(len, ctl) * SegSize(ctl)
    ensures i + 1 < SegCount(len, ctl) ==> (i + 1) * SegSize(ctl) <= len
    ensures i + 1 == SegCount(len, ctl) ==> len <= (i + 1) * SegSize(ctl)
  {
  }

  lemma SegDataLen(pdu: seq<byte>, ctl: bool, i: nat)
    requires i < SegCount(|pdu|, ctl)
    ensures 0 < |SegData(pdu, ctl, i)| <= SegSize(ctl)
    ensures i + 1 < SegCount(|pdu|, ctl) ==> |SegData(pdu, ctl, i)| == SegSize(ctl)
    ensures i * SegSize(ctl) + |SegData(pdu, ctl, i)| == Min((i + 1) * SegSize(ctl), |pdu|)
  {
    SegBounds(|pdu|, ctl, i);
  }

  lemma {:induction false} HeldLenAdds(pdu: seq<byte>, ctl: bool, held: set<nat>, i: nat, k: nat)
    requires i !in held && k <= SegCount(|pdu|, ctl) && i < SegCount(|pdu|, ctl)
    ensures HeldLen(pdu, ctl, held + {i}, k) == HeldLen(pdu, ctl, held, k) + (if i < k then |SegData(pdu, ctl, i)| else 0)
  {
    if k > 0 { HeldLenAdds(pdu, ctl, held, i, k - 1); }
  }

  lemma {:induction false} HeldLenAll(pdu: seq<byte>, ctl: bool, held: set<nat>, k: nat)
    requires k <= SegCount(|pdu|, ctl) && Bits(k) <= held
    ensures HeldLen(pdu, ctl, held, k) == Min(k * SegSize(ctl), |pdu|)
  {
    if k > 0 {
      assert forall i :: i in Bits(k - 1) ==> i in Bits(k);
      HeldLenAll(pdu, ctl, held, k - 1);
      SegDataLen(pdu, ctl, k - 1);
      SegBounds(|pdu|, ctl, k - 1);
    }
  }

  lemma {:induction false} HeldLenNone(pdu: seq<byte>, ctl: bool, k: nat)
    requires k <= SegCount(|pdu|, ctl)
    ensures HeldLen(pdu, ctl, {}, k) == 0
  {
    if k > 0 { HeldLenNone(pdu, ctl, k - 1); }
  }

  /** What a slot's previous message may leave behind without harm to a message of count segments. */
  predicate Usable(t: RxTask, count: nat) { count == 1 || (t.pduLen == 0 && t.notReceived <= Bits(count)) }

  lemma RefilledHolds(t: RxTask, c: MsgCtx, pdu: seq<byte>)
    requires Usable(t, SegCount(|pdu|, c.ctl)) && pdu != []
    ensures Holds(Refilled(t, c, SegCount(|pdu|, c.ctl)), c.ctl, pdu)
  {
    HeldLenNone(pdu, c.ctl, SegCount(|pdu|, c.ctl));
  }

  lemma OtherSegment(buf: seq<byte>, ctl: bool, pdu: seq<byte>, i: nat, j: nat)
    requires i < SegCount(|pdu|, ctl) && j < SegCount(|pdu|, ctl) && i != j
    requires |buf| == SegCount(|pdu|, ctl) * SegSize(ctl)
    ensures i * SegSize(ctl) + |SegData(pdu, ctl, i)| <= |buf| && j * SegSize(ctl) + |SegData(pdu, ctl, j)| <= |buf|
    ensures Splice(buf, i * SegSize(ctl), SegData(pdu, ctl, i))[j * SegSize(ctl)..j * SegSize(ctl) + |SegData(pdu, ctl, j)|]
            == buf[j * SegSize(ctl)..j * SegSize(ctl) + |SegData(pdu, ctl, j)|]
  {
    hide Splice, SegData, SegCount;
    var di, dj, size := SegData(pdu, ctl, i), SegData(pdu, ctl, j), SegSize(ctl);
    SegPlace(pdu, ctl, i);
    SegPlace(pdu, ctl, j);
    if i < j { MulMonotone(i + 1, j, size); } else { MulMonotone(j + 1, i, size); }
    SpliceElsewhere(buf, i * size, di, j * size, j * size + |dj|);
  }

  lemma SegPlace(pdu: seq<byte>, ctl: bool, i: nat)
    requires i < SegCount(|pdu|, ctl)
    ensures i * SegSize(ctl) + |SegData(pdu, ctl, i)| <= (i + 1) * SegSize(ctl) <= SegCount(|pdu|, ctl) * SegSize(ctl)
  {
    SegDataLen(pdu, ctl, i);
    SegBounds(|pdu|, ctl, i);
  }

  lemma MulMonotone(a: nat, b: nat, c: nat)
    requires a <= b
    ensures a * c <= b * c
  {
  }

  /** Storing one more segment of the PDU. */
  lemma AcceptHolds(t: RxTask, ctl: bool, pdu: seq<byte>, i: nat)
    requires Holds(t, ctl, pdu) && i in t.notReceived && i < SegCount(|pdu|, ctl)
    ensures i * SegSize(ctl) + |SegData(pdu, ctl, i)| <= |t.buf|
    ensures Holds(Accept(t, ctl, i, SegCount(|pdu|, ctl) - 1, SegData(pdu, ctl, i)), ctl, pdu)
    ensures Accept(t, ctl, i, SegCount(|pdu|, ctl) - 1, SegData(pdu, ctl, i)).blockAck == t.blockAck + {i}
  {
    var n, d := SegCount(|pdu|, ctl), SegData(pdu, ctl, i);
    SegBounds(|pdu|, ctl, i);
    SegDataLen(pdu, ctl, i);
    SegPlace(pdu, ctl, i);
    hide Splice, SegData, HeldLen, Bits, SegCount;
    AcceptCounts(t, ctl, pdu, i);
    AcceptContent(t, ctl, pdu, i);
  }

  lemma AcceptCounts(t: RxTask, ctl: bool, pdu: seq<byte>, i: nat)
    requires Holds(t, ctl, pdu) && i in t.notReceived && i < SegCount(|pdu|, ctl)
    requires i * SegSize(ctl) + |SegData(pdu, ctl, i)| <= |t.buf|
    ensures var n := SegCount(|pdu|, ctl);
            var r := Accept(t, ctl, i, n - 1, SegData(pdu, ctl, i));
            && r.blockAck == t.blockAck + {i} && r.notReceived == Bits(n) - r.blockAck
            && r.pduLen == HeldLen(pdu, ctl, r.blockAck, n)
  {
    hide Splice;
    var n := SegCount(|pdu|, ctl);
    HeldLenAdds(pdu, ctl, t.blockAck, i, n);
    if n == 1 {
      assert i == 0 && t.blockAck == {};
      HeldLenNone(pdu, ctl, 1);
    }
  }

  lemma AcceptContent(t: RxTask, ctl: bool, pdu: seq<byte>, i: nat)
    requires Holds(t, ctl, pdu) && i in t.notReceived && i < SegCount(|pdu|, ctl)
    requires i * SegSize(ctl) + |SegData(pdu, ctl, i)| <= |t.buf|
    ensures var b := Splice(t.buf, i * SegSize(ctl), SegData(pdu, ctl, i));
            forall j :: j in t.blockAck + {i} ==>
              j * SegSize(ctl) + |SegData(pdu, ctl, j)| <= |b|
              && b[j * SegSize(ctl)..j * SegSize(ctl) + |SegData(pdu, ctl, j)|] == SegData(pdu, ctl, j)
  {
    var b, d := Splice(t.buf, i * SegSize(ctl), SegData(pdu, ctl, i)), SegData(pdu, ctl, i);
    SpliceHere(t.buf, i * SegSize(ctl), d);
    hide Splice;
    forall j | j in t.blockAck + {i}
      ensures j * SegSize(ctl) + |SegData(pdu, ctl, j)| <= |b|
              && b[j * SegSize(ctl)..j * SegSize(ctl) + |SegData(pdu, ctl, j)|] == SegData(pdu, ctl, j)
    {
      if j != i { OtherSegment(t.buf, ctl, pdu, i, j); }
    }
  }

  /** A task that holds every segment has the PDU, octets and length, at the front of its buffer. */
  lemma CompleteTask(t: RxTask, ctl: bool, pdu: seq<byte>)
    requires Holds(t, ctl, pdu)
    ensures t.notReceived == {} <==> t.blockAck == Bits(SegCount(|pdu|, ctl))
    ensures t.notReceived == {} ==> t.pduLen == |pdu| <= |t.buf| && t.buf[..|pdu|] == pdu
  {
    var n := SegCount(|pdu|, ctl);
    if t.notReceived == {} {
      assert t.blockAck == Bits(n);
      HeldLenAll(pdu, ctl, t.blockAck, n);
      SegBounds(|pdu|, ctl, n - 1);
      AllSegments(t.buf, ctl, pdu, n);
    }
  }

  lemma {:induction false} AllSegments(buf: seq<byte>, ctl: bool, pdu: seq<byte>, k: nat)
    requires |buf| == SegCount(|pdu|, ctl) * SegSize(ctl) && k <= SegCount(|pdu|, ctl)
    requires forall i :: 0 <= i < k ==> i * SegSize(ctl) + |SegData(pdu, ctl, i)| <= |buf|
                                        && buf[i * SegSize(ctl)..i * SegSize(ctl) + |SegData(pdu, ctl, i)|] == SegData(pdu, ctl, i)
    ensures Min(k * SegSize(ctl), |pdu|) <= |buf|
    ensures buf[..Min(k * SegSize(ctl), |pdu|)] == pdu[..Min(k * SegSize(ctl), |pdu|)]
  {
    if k > 0 {
      AllSegments(buf, ctl, pdu, k - 1);
      SegBounds(|pdu|, ctl, k - 1);
      SegDataLen(pdu, ctl, k - 1);
      var a, b := (k - 1) * SegSize(ctl), Min(k * SegSize(ctl), |pdu|);
      assert buf[..b] == buf[..a] + buf[a..b];
      assert pdu[..b] == pdu[..a] + pdu[a..b];
    }
  }
}
