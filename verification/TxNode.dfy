// The transmitting node as step functions: sequence counters (mesh/node/meshx_seq.c), the IV machine and the
// transmit task pool of mesh/transport/meshx_lower_trans.c. Lists of pool nodes are sequences of pool slots.

module TxNode {
  import opened Bytes
  import opened Mesh
  import opened Segments
  import opened IvIndex

  const UNSEG_ACCESS_MAX: nat := 15
  const UNSEG_CTL_MAX: nat := 11

  datatype TxTask = TxTask(ctx: MsgCtx, pdu: seq<byte>, segBits: set<nat>, blockAck: set<nat>, retryTimes: nat)

  /** What a sequence number was used for. */
  datatype Use =
    | Message(ctx: MsgCtx, pdu: seq<byte>)     // SeqAuth of a message about to be segmented
    | OnAir(ctx: MsgCtx, frame: seq<byte>)     // a transport PDU handed to the network layer
    | Refused                                  // drawn, but nothing was sent

  datatype Draw = Draw(src: nat, iv: nat, sqn: nat, use: Use)

  /** log: every number put to use, with the IV index of the context: those the stack draws for itself, and those of
      control messages, which their callers bring along. */
  datatype Node = Node(addr: nat, retryLimit: nat, iv: Iv, counters: seq<nat>, tasks: seq<TxTask>,
                       idle: seq<nat>, active: seq<nat>, pending: seq<nat>, log: seq<Draw>)

  // ---------- sequence numbers ----------

  predicate OwnSource(n: Node, src: nat) { n.addr <= src < n.addr + |n.counters| }

  function Next(n: Node, src: nat): nat {
    if OwnSource(n, src) then n.counters[src - n.addr] else SEQ_MAX
  }

  /** meshx_seq_use: saturates at SEQ_MAX. An address that is none of the node's elements changes no counter. */
  function Counted(n: Node, src: nat): seq<nat> {
    var q := Next(n, src);
    if OwnSource(n, src) && q != SEQ_MAX then n.counters[src - n.addr := q + 1] else n.counters
  }

  /** A number drawn and put to use at once. */
  function Drawn(n: Node, src: nat, iv: nat, use: Use): Node {
    n.(counters := Counted(n, src), log := n.log + [Draw(src, iv, Next(n, src), use)])
  }

  /** A number drawn by a caller, for a control message to come. */
  function Taken(n: Node, src: nat): Node { n.(counters := Counted(n, src)) }

  /** meshx_seq_clear */
  function Cleared(n: Node): Node { n.(counters := seq(|n.counters|, _ => 0)) }

  // ---------- sending the segments of one task ----------

  datatype Sent = Sent(node: Node, ok: bool)

  function TaskCount(t: TxTask): nat { SegCount(|t.pdu|, t.ctx.ctl) }

  /** n2 differs from n1 only in counters, log and the sequence number recorded in slot s. */
  predicate OnlySends(n1: Node, n2: Node, s: nat) {
    && n2 == n1.(counters := n2.counters, tasks := n2.tasks, log := n2.log)
    && |n2.counters| == |n1.counters| && |n2.tasks| == |n1.tasks| && s < |n1.tasks|
    && n2.tasks == n1.tasks[s := n1.tasks[s].(ctx := n1.tasks[s].ctx.(sqn := n2.tasks[s].ctx.sqn))]
  }

  /** Segment i of the task in slot s: draw a number, check the window, hand the PDU to the network layer. */
  function SendOne(n: Node, s: nat, i: nat): (r: Sent)
    requires s < |n.tasks| && i < TaskCount(n.tasks[s])
    ensures OnlySends(n, r.node, s) && |r.node.log| == |n.log| + 1
  {
    var t := n.tasks[s];
    var q := Next(n, t.ctx.src);
    var ctx := t.ctx.(sqn := q);
    var ok := InWindow(q, ctx.seqAuth);
    var use := if ok then OnAir(ctx, SegPdu(ctx, t.pdu, i)) else Refused;
    Sent(Drawn(n, ctx.src, ctx.iv, use).(tasks := n.tasks[s := t.(ctx := ctx)]), ok)
  }

  /** meshx_lower_trans_send_seg_msg from segment i on: segments in block_ack are skipped, the first refusal stops. */
  function SendFrom(n: Node, s: nat, i: nat): (r: Sent)
    requires s < |n.tasks|
    ensures OnlySends(n, r.node, s)
    decreases TaskCount(n.tasks[s]) - i
  {
    if i >= TaskCount(n.tasks[s]) then Sent(n, true)
    else if i in n.tasks[s].blockAck then SendFrom(n, s, i + 1)
    else
      var r := SendOne(n, s, i);
      if !r.ok then r else SendFrom(r.node, s, i + 1)
  }

  // ---------- the scheduler ----------

  predicate Below(l: seq<nat>, b: nat) { forall k :: 0 <= k < |l| ==> l[k] < b }

  function Without(l: seq<nat>, s: nat): (r: seq<nat>)
    ensures |r| <= |l|
    ensures forall b :: Below(l, b) ==> Below(r, b)
  {
    if l == [] then [] else if l[0] == s then l[1..]
    else
      assert forall b :: Below(l, b) ==> Below(l[1..], b);
      [l[0]] + Without(l[1..], s)
  }

  predicate Slots(n: Node, l: seq<nat>) { Below(l, |n.tasks|) }

  predicate NodeOk(n: Node) { Slots(n, n.idle) && Slots(n, n.active) && Slots(n, n.pending) }

  predicate DstActive(n: Node, dst: nat)
    requires Slots(n, n.active)
  {
    exists k :: 0 <= k < |n.active| && n.tasks[n.active[k]].ctx.dst == dst
  }

  /** The first pending slot whose destination has no active task, or |pending|. */
  function FirstRunnable(n: Node, k: nat): (r: nat)
    requires NodeOk(n) && k <= |n.pending|
    ensures k <= r <= |n.pending|
    ensures forall j :: k <= j < r ==> DstActive(n, n.tasks[n.pending[j]].ctx.dst)
    ensures r < |n.pending| ==> !DstActive(n, n.tasks[n.pending[r]].ctx.dst)
    decreases |n.pending| - k
  {
    if k == |n.pending| then k
    else if DstActive(n, n.tasks[n.pending[k]].ctx.dst) then FirstRunnable(n, k + 1)
    else k
  }

  /** meshx_lower_trans_tx_task_release, and the deferred IV transition that follows it in tx_task_finish. */
  function Release(n: Node, s: nat): (r: Node)
    requires s < |n.tasks|
    ensures NodeOk(n) ==> NodeOk(r)
  {
    n.(active := Without(n.active, s), idle := n.idle + [s], iv := TaskFinished(n.iv))
  }

  function TakePending(n: Node, k: nat): (r: Node)
    requires k < |n.pending|
    ensures NodeOk(n) ==> NodeOk(r)
  {
    n.(pending := n.pending[..k] + n.pending[k + 1..])
  }

  function Activate(n: Node, s: nat): (r: Node)
    ensures NodeOk(n) && s < |n.tasks| ==> NodeOk(r)
  {
    n.(active := n.active + [s])
  }

  /** meshx_lower_trans_tx_task_finish; with StartTask below it recurses once per pending task at most. */
  function Finish(n: Node, s: nat): (r: Node)
    requires NodeOk(n) && s < |n.tasks|
    ensures NodeOk(r)
    decreases |n.pending|, 0
  {
    var n1 := Release(n, s);
    var k := FirstRunnable(n1, 0);
    if k < |n1.pending| then StartTask(TakePending(n1, k), n1.pending[k]) else n1
  }

  /** meshx_lower_trans_tx_task_run, given that its timer could be created. */
  function StartTask(n: Node, s: nat): (r: Node)
    requires NodeOk(n) && s < |n.tasks|
    ensures NodeOk(r)
    decreases |n.pending|, 1
  {
    var sent := SendFrom(Activate(n, s), s, 0);
    if sent.ok then sent.node else Finish(sent.node, s)
  }

  /** meshx_lower_trans_tx_task_try */
  function TryTask(n: Node, s: nat): (r: Node)
    requires NodeOk(n) && s < |n.tasks|
    ensures NodeOk(r)
  {
    if DstActive(n, n.tasks[s].ctx.dst) then n.(pending := n.pending + [s]) else StartTask(n, s)
  }

  /** Segments again after a timeout or a partial acknowledgement; gives up outside the window. */
  function Resend(n: Node, s: nat): (r: Node)
    requires NodeOk(n) && s < |n.tasks|
    ensures NodeOk(r)
  {
    var n1 := SendFrom(n, s, 0).node;
    if InWindow(n1.tasks[s].ctx.sqn, n1.tasks[s].ctx.seqAuth) then n1 else Finish(n1, s)
  }

  function WithTask(n: Node, s: nat, t: TxTask): (r: Node)
    requires s < |n.tasks|
    ensures NodeOk(n) ==> NodeOk(r)
  {
    n.(tasks := n.tasks[s := t])
  }

  /** retry_times is an 8-bit counter. */
  function Retried(t: TxTask): TxTask { t.(retryTimes := (t.retryTimes + 1) % 256) }

  /** meshx_lower_trans_handle_tx_timeout */
  function Timeout(n: Node, s: nat): (r: Node)
    requires NodeOk(n) && s in n.active
    ensures NodeOk(r)
  {
    var t := Retried(n.tasks[s]);
    var n1 := WithTask(n, s, t);
    if t.retryTimes > n.retryLimit then Finish(n1, s) else Resend(n1, s)
  }

  /** The first active task with this SeqZero. */
  function AckedSlot(n: Node, seqZero: nat, k: nat): (r: Option<nat>)
    requires NodeOk(n) && k <= |n.active|
    ensures r.Some? ==> r.value in n.active && SeqZero(n.tasks[r.value].ctx.seqAuth) == seqZero
    ensures r.None? ==> forall j :: k <= j < |n.active| ==> SeqZero(n.tasks[n.active[j]].ctx.seqAuth) != seqZero
    decreases |n.active| - k
  {
    if k == |n.active| then None
    else if SeqZero(n.tasks[n.active[k]].ctx.seqAuth) == seqZero then Some(n.active[k])
    else AckedSlot(n, seqZero, k + 1)
  }

  /** meshx_lower_trans_recv_block_ack */
  function ReceiveAck(n: Node, seqZero: nat, block: set<nat>): (r: Node)
    requires NodeOk(n)
    ensures NodeOk(r)
  {
    match AckedSlot(n, seqZero, 0)
    case None => n
    case Some(s) =>
      if n.tasks[s].segBits == block || block == {} then Finish(n, s)
      else
        var t := Retried(n.tasks[s]);
        if t.retryTimes > n.retryLimit then Finish(WithTask(n, s, t), s)
        else Resend(WithTask(n, s, t.(blockAck := block)), s)
  }

  // ---------- new messages ----------

  predicate AlreadySending(n: Node, dst: nat, seqAuth: nat)
    requires NodeOk(n)
  {
    exists k :: 0 <= k < |n.active| && n.tasks[n.active[k]].ctx.dst == dst && n.tasks[n.active[k]].ctx.seqAuth == seqAuth
  }

  predicate Storable(n: Node, ctx: MsgCtx, len: nat)
    requires NodeOk(n)
  {
    SegCount(len, ctx.ctl) <= MAX_SEGMENTS && !AlreadySending(n, ctx.dst, ctx.seqAuth) && n.idle != []
  }

  /** meshx_lower_trans_process_seg_msg; a refused message leaves the node as it is. */
  function StoreMessage(n: Node, ctx: MsgCtx, pdu: seq<byte>): (r: Node)
    requires NodeOk(n)
    ensures NodeOk(r)
  {
    if !Storable(n, ctx, |pdu|) then n
    else
      var t := TxTask(ctx, pdu, Bits(SegCount(|pdu|, ctx.ctl)), {}, 0);
      TryTask(n.(idle := n.idle[1..], tasks := n.tasks[n.idle[0] := t]), n.idle[0])
  }

  // ---------- entry points ----------

  predicate Busy(n: Node) { n.active != [] }

  predicate NeedsSegments(c: MsgCtx, len: nat) { c.seg || len > (if c.ctl then UNSEG_CTL_MAX else UNSEG_ACCESS_MAX) }

  /** The context a message is sent with. An access message draws its number here, and that is its SeqAuth too; a
      control message keeps the numbers its caller put there. The IV index is the caller's in either case. */
  function WithNumber(n: Node, c: MsgCtx): MsgCtx {
    if c.ctl then c else c.(sqn := Next(n, c.src), seqAuth := Next(n, c.src))
  }

  /** The use of a segmented message's SeqAuth. */
  function SeqAuthUse(c: MsgCtx, pdu: seq<byte>): Use { Message(c.(sqn := c.seqAuth), pdu) }

  function FrameUse(c: MsgCtx, pdu: seq<byte>): Use { OnAir(c, [Header(c, false)] + pdu) }

  /** The number of context c goes into use; it is drawn only for access messages. */
  function PutToUse(n: Node, c: MsgCtx, use: Use): Node
    requires !use.Refused?
  {
    if c.ctl then n.(log := n.log + [Draw(c.src, c.iv, use.ctx.sqn, use)]) else Drawn(n, c.src, c.iv, use)
  }

  /** A transport PDU for the peer's upper layer (meshx_upper_trans_send without the encryption): meshx_lower_trans_send
      rejects it, sends it whole or stores it for segmentation. A control message that is refused uses no number. */
  function SendMessage(n: Node, ctx: MsgCtx, pdu: seq<byte>): (r: Node)
    requires NodeOk(n)
    ensures NodeOk(r)
  {
    var c := WithNumber(n, ctx);
    if pdu == [] || !IsValidAddress(ctx.dst) then
      if c.ctl then n else Drawn(n, c.src, c.iv, Refused)
    else if NeedsSegments(c, |pdu|) then
      var w := c.(seg := true);
      if c.ctl && !Storable(n, w, |pdu|) then n else StoreMessage(PutToUse(n, w, SeqAuthUse(w, pdu)), w, pdu)
    else PutToUse(n, c, FrameUse(c, pdu))
  }

  function MaskValue(block: set<nat>, k: nat): (v: nat)
    ensures v < Pow2(k)
  {
    if k == 0 then 0 else MaskValue(block, k - 1) + (if k - 1 in block then Pow2(k - 1) else 0)
  }

  /** The acknowledgement PDU after its header octet: SeqZero above two reserved bits, then the 32-bit mask. */
  function AckPdu(seqZero: nat, block: set<nat>): seq<byte> {
    BE(seqZero * 4, 2) + BE(MaskValue(block, 32), 4)
  }

  function AckCtx(n: Node, src: nat, dst: nat, ttl: nat): MsgCtx
    requires IvValid(n.iv)
  {
    MsgCtx(src, dst, ttl, true, false, false, false, 0, 0, TxIv(n.iv), Next(n, src), 0)
  }

  function AckUse(c: MsgCtx, seqZero: nat, block: set<nat>): Use {
    if IsValidAddress(c.dst) then OnAir(c, [Header(c, false)] + AckPdu(seqZero, block)) else Refused
  }

  /** meshx_lower_trans_seg_ack: an unsegmented control message with opcode 0 and a number drawn for it. */
  function SendAck(n: Node, src: nat, dst: nat, ttl: nat, seqZero: nat, block: set<nat>): (r: Node)
    requires NodeOk(n) && IvValid(n.iv)
    ensures NodeOk(r)
  {
    var c := AckCtx(n, src, dst, ttl);
    Drawn(n, src, c.iv, AckUse(c, seqZero, block))
  }

  function IvApplied(n: Node, r: IvStep): (m: Node)
    ensures NodeOk(n) ==> NodeOk(m)
  {
    (if r.clear then Cleared(n) else n).(iv := r.iv)
  }

  function IvTick(n: Node): Node { IvApplied(n, Tick(n.iv, Busy(n))) }

  function IvMessage(n: Node, index: nat, state: IvState): Node
    requires index < n.iv.index + 0x8000_0000
  {
    IvApplied(n, Update(n.iv, index, state, Busy(n)))
  }

  // ---------- runs ----------

  datatype Step =
    | TakeNumber(src: nat)                     // a caller's own use of meshx_seq_use
    | Send(ctx: MsgCtx, pdu: seq<byte>)
    | AckOut(src: nat, dst: nat, ttl: nat, seqZero: nat, block: set<nat>)
    | TimerFires(slot: nat)
    | AckArrives(seqZero: nat, block: set<nat>)
    | ClockTick
    | Beacon(index: nat, state: IvState)

  /** The widths of the fields of an acknowledgement. */
  predicate AckFieldsFit(seqZero: nat, block: set<nat>) { seqZero < SEQ_ZERO_RANGE && block <= Bits(32) }

  predicate Enabled(n: Node, e: Step) {
    match e
    case TakeNumber(src) => OwnSource(n, src)
    case Send(ctx, _) => OwnSource(n, ctx.src) && Fits(ctx)
    case AckOut(src, dst, ttl, seqZero, block) =>
      OwnSource(n, src) && dst < 0x1_0000 && ttl < 128 && AckFieldsFit(seqZero, block)
    case AckArrives(seqZero, block) => AckFieldsFit(seqZero, block)
    case TimerFires(s) => s in n.active
    case Beacon(index, _) => index < 0x1_0000_0000 && index < n.iv.index + 0x8000_0000
    case _ => true
  }

  function Do(n: Node, e: Step): (r: Node)
    requires NodeOk(n) && IvValid(n.iv) && Enabled(n, e)
    ensures NodeOk(r)
  {
    match e
    case TakeNumber(src) => Taken(n, src)
    case Send(ctx, pdu) => SendMessage(n, ctx, pdu)
    case AckOut(src, dst, ttl, seqZero, block) => SendAck(n, src, dst, ttl, seqZero, block)
    case TimerFires(s) => Timeout(n, s)
    case AckArrives(seqZero, block) => ReceiveAck(n, seqZero, block)
    case ClockTick => IvTick(n)
    case Beacon(index, state) => IvMessage(n, index, state)
  }

  /** Every step of the run may be taken when its turn comes. */
  predicate Legal(n: Node, es: seq<Step>)
    requires NodeOk(n) && IvValid(n.iv)
    decreases |es|
  {
    es == [] || (Enabled(n, es[0]) && IvValid(Do(n, es[0]).iv) && Legal(Do(n, es[0]), es[1..]))
  }

  function Exec(n: Node, es: seq<Step>): (r: Node)
    requires NodeOk(n) && IvValid(n.iv) && Legal(n, es)
    ensures NodeOk(r) && IvValid(r.iv)
    decreases |es|
  {
    if es == [] then n else Exec(Do(n, es[0]), es[1..])
  }

  function Range(k: nat): (r: seq<nat>)
    ensures |r| == k && forall i :: 0 <= i < k ==> r[i] == i
  {
    if k == 0 then [] else Range(k - 1) + [k - 1]
  }

  predicate Initial(n: Node) {
    && n.addr + |n.counters| <= 0x1_0000
    && n.iv.index < 0x1_0000_0000 && n.iv.state.Normal? && !n.iv.pending && n.log == []
    && n.idle == Range(|n.tasks|) && n.active == [] && n.pending == []
    && forall i :: 0 <= i < |n.counters| ==> n.counters[i] == 0
  }
}
