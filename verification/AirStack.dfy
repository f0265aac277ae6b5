// A segmented access message through all four layers: every segment and the returning acknowledgement travel as
// encrypted and obfuscated network packets.

module AirStack {
  import opened Bytes
  import opened Mesh
  import opened Segments
  import opened IvIndex
  import opened TxNode
  import opened RxNode
  import opened Scheduler
  import opened Messages
  import opened Freshness
  import opened RxPools
  import opened Transport
  import opened AckFormat
  import opened SlotReuse
  import opened Bursts
  import opened Completion
  import opened UpperTransport
  import opened WholeStack
  import Network

  /** The network key in use, and the two nodes' key lists and IV indexes. */
  datatype Radio = Radio(aes: Aes, key: Network.NetKey, rxKeys: seq<Network.NetKey>, rxPlace: nat, rxIndex: nat,
                         txKeys: seq<Network.NetKey>, txPlace: nat, txIndex: nat)

  predicate RadioOk(w: Radio) {
    && w.key.nid < 128 && w.rxIndex < 0x1_0000_0000 && w.txIndex < 0x1_0000_0000
    && Network.FirstIsRight(w.rxKeys, w.key, w.rxPlace) && Network.FirstIsRight(w.txKeys, w.key, w.txPlace)
  }

  predicate Sendable(w: Radio, c: MsgCtx, frame: seq<byte>) {
    w.key.nid < 128 && Fits(c) && |frame| + Network.MicLen(c.ctl) <= Network.TRANS_PDU_MAX
  }

  /** The transport PDU is packed, encrypted and obfuscated; a node with these keys and this IV index receives it. */
  function Heard(w: Radio, keys: seq<Network.NetKey>, index: nat, c: MsgCtx, frame: seq<byte>): Option<Network.NetIn>
    requires Sendable(w, c, frame)
  {
    Network.Receive(w.aes, keys, index, Network.Packet(w.aes, w.key, c, frame), Network.PacketLen(c, frame))
  }

  // ---------- segments ----------

  /** meshx_lower_trans_receive at the destination, for segments. */
  function TakesSegment(s: Net, x: Network.NetIn): Net {
    if x.ctx.dst in s.rx && PoolOk(s.rx[x.ctx.dst]) && |x.pdu| == 20 && x.len <= (if x.ctx.ctl then 12 else 16)
       && x.pdu[0] >= 128 && (x.ctx.ctl ==> x.pdu[0] % 128 != 0)
    then Received(s, x.ctx.dst, RxNode.Receive(s.rx[x.ctx.dst], x.ctx, x.pdu, x.len, true))
    else s
  }

  /** The packet of draw i is heard. */
  function HearsFrame(s: Net, i: nat, w: Radio): Net {
    if i < |s.n.log| && s.n.log[i].use.OnAir? && Sendable(w, s.n.log[i].use.ctx, s.n.log[i].use.frame) then
      match Heard(w, w.rxKeys, w.rxIndex, s.n.log[i].use.ctx, s.n.log[i].use.frame)
      case None => s
      case Some(x) => TakesSegment(s, x)
    else s
  }

  /** What the network layer leaves behind the PDU of draw i in its buffer. */
  function TailOf(log: seq<Draw>, i: nat, w: Radio): seq<byte> {
    if i < |log| && log[i].use.OnAir? && Sendable(w, log[i].use.ctx, log[i].use.frame) then
      Rest(Heard(w, w.rxKeys, w.rxIndex, log[i].use.ctx, log[i].use.frame), |log[i].use.frame|)
    else []
  }

  /** Draw i is a segment that its destination can hear. */
  ghost predicate NodeAudible(n: Node, i: nat, w: Radio) {
    && Good(n) && RadioOk(w) && i < |n.log| && n.log[i].use.OnAir? && n.log[i].use.ctx.seg
    && var c := n.log[i].use.ctx;
       && IsValidAddress(c.src) && IsValidAddress(c.dst) && (c.ctl ==> c.opcode != 0)
       && (c.iv == w.rxIndex || c.iv == (w.rxIndex - 1) % 0x1_0000_0000)
  }

  ghost predicate Audible(s: Net, i: nat, w: Radio) { NodeAudible(s.n, i, w) }

  lemma FirstOctet(n: Node, i: nat)
    requires Good(n) && i < |n.log| && n.log[i].use.OnAir? && n.log[i].use.ctx.seg
    ensures var c, f := n.log[i].use.ctx, n.log[i].use.frame;
            f != [] && f[0] >= 128 && (c.ctl ==> f[0] % 128 == c.opcode)
  {
    var d := n.log[i];
    assert DrawOk(n.log, d);
    var j, k :| 0 <= j < |n.log| && IsFrameOf(d, n.log[j], k);
    assert DrawOk(n.log, n.log[j]);
    HeaderParses(n.log[j].use.ctx);
    hide SegData, SegCount;
  }

  /** What the destination's network layer makes of the packet. */
  lemma SegmentHeard(n: Node, i: nat, w: Radio)
    requires NodeAudible(n, i, w)
    ensures var c, f, t := n.log[i].use.ctx, n.log[i].use.frame, TailOf(n.log, i, w);
            && Sendable(w, c, f) && Heard(w, w.rxKeys, w.rxIndex, c, f) == Some(Network.NetIn(NetCtx(c), f + t, |f|))
            && |f + t| == 20 && 4 <= |f| <= (if c.ctl then 12 else 16)
            && (f + t)[0] >= 128 && (c.ctl ==> (f + t)[0] % 128 == c.opcode)
  {
    FrameReachesTransport(n, i, w.aes, w.rxKeys, w.key, w.rxPlace, w.rxIndex);
    FirstOctet(n, i);
    hide Good, Network.Packet, Network.Receive, Network.FirstIsRight;
  }

  lemma ArrivalIs(s: Net, i: nat, rest: seq<byte>)
    requires NodeOk(s.n) && IvValid(s.n.iv) && Possible(s, SegmentArrives(i, rest, true))
    ensures i < |s.n.log| && s.n.log[i].use.OnAir?
    ensures var c, f := s.n.log[i].use.ctx, s.n.log[i].use.frame;
            && c.dst in s.rx && PoolOk(s.rx[c.dst]) && |f| + |rest| == 20 && |f| <= (if c.ctl then 12 else 16)
            && NextNet(s, SegmentArrives(i, rest, true))
               == Received(s, c.dst, RxNode.Receive(s.rx[c.dst], NetCtx(c), f + rest, |f|, true))
  {
    hide RxNode.Receive;
  }

  /** Through the network layer a segment arrives as Transport's events say, with that tail. */
  lemma HeardIsArrival(s: Net, i: nat, w: Radio)
    requires Audible(s, i, w) && NodeOk(s.n) && IvValid(s.n.iv) && Possible(s, SegmentArrives(i, TailOf(s.n.log, i, w), true))
    ensures HearsFrame(s, i, w) == NextNet(s, SegmentArrives(i, TailOf(s.n.log, i, w), true))
  {
    assert NodeAudible(s.n, i, w) && (s.n.log[i].use.ctx.ctl ==> s.n.log[i].use.ctx.opcode != 0);
    SegmentHeard(s.n, i, w);
    ArrivalIs(s, i, TailOf(s.n.log, i, w));
    hide NodeAudible, Audible, Sendable, Heard, TailOf, NextNet, Possible, PoolOk, NodeOk, IvValid, RxNode.Receive, NetCtx, Received;
    var c, f, t := s.n.log[i].use.ctx, s.n.log[i].use.frame, TailOf(s.n.log, i, w);
    var x := Network.NetIn(NetCtx(c), f + t, |f|);
    assert NetCtx(c).dst == c.dst && NetCtx(c).ctl == c.ctl by { NetCtxKeeps(c); }
    assert HearsFrame(s, i, w) == TakesSegment(s, x);
  }

  lemma NetCtxKeeps(c: MsgCtx)
    ensures NetCtx(c).dst == c.dst && NetCtx(c).ctl == c.ctl
  {
  }

  /** The packets of the draws after j are heard in the given order. */
  function HearsAll(s: Net, j: nat, order: seq<nat>, w: Radio): Net
    decreases |order|
  {
    if order == [] then s else HearsAll(HearsFrame(s, j + 1 + order[0], w), j, order[1..], w)
  }

  ghost predicate SegmentAudible(s: Net, j: nat, k: nat, w: Radio) { Audible(s, j + 1 + k, w) }

  ghost predicate AllAudible(s: Net, j: nat, n: nat, w: Radio) {
    forall k :: 0 <= k < n ==> SegmentAudible(s, j, k, w)
  }

  lemma SameNodeAudible(s: Net, u: Net, j: nat, n: nat, w: Radio)
    requires AllAudible(s, j, n, w) && u.n == s.n
    ensures AllAudible(u, j, n, w)
  {
    forall k | 0 <= k < n ensures SegmentAudible(u, j, k, w) { assert SegmentAudible(s, j, k, w); }
  }

  /** Tails for the draws after j, as long as they are in this log. */
  ghost predicate TailsAre(tail: Tails, log: seq<Draw>, j: nat, n: nat, w: Radio) {
    forall k :: 0 <= k < n ==> tail(k) == TailOf(log, j + 1 + k, w)
  }

  lemma ArrivalKeepsNode(s: Net, j: nat, k: nat, tail: Tails)
    requires NodeOk(s.n) && IvValid(s.n.iv) && Possible(s, ArrivalOf(j, k, tail))
    ensures NextNet(s, ArrivalOf(j, k, tail)).n == s.n
  {
    hide Possible, RxNode.Receive;
  }

  /** Hearing packet after packet is the run of Transport's arrivals. */
  lemma {:induction false} HearsAllIsRun(s: Net, j: nat, n: nat, order: seq<nat>, tail: Tails, a: Ack, w: Radio)
    requires NodeOk(s.n) && IvValid(s.n.iv) && FairRun(s, Arrivals(j, order, tail) + [AckReturns(a)])
    requires AllAudible(s, j, n, w) && TailsAre(tail, s.n.log, j, n, w) && forall i :: 0 <= i < |order| ==> order[i] < n
    ensures var u := HearsAll(s, j, order, w);
            && u.n == s.n && Possible(u, AckReturns(a))
            && RunNet(s, Arrivals(j, order, tail) + [AckReturns(a)]) == NextNet(u, AckReturns(a))
    decreases |order|
  {
    hide NextNet, Possible, Fair, HearsFrame, NodeOk, IvValid, TailOf, Audible;
    var vs := Arrivals(j, order, tail) + [AckReturns(a)];
    if order == [] {
      assert vs == [AckReturns(a)] && vs[1..] == [];
    } else {
      var k := order[0];
      assert vs[0] == ArrivalOf(j, k, tail) && vs[1..] == Arrivals(j, order[1..], tail) + [AckReturns(a)];
      assert SegmentAudible(s, j, k, w) && tail(k) == TailOf(s.n.log, j + 1 + k, w);
      ArrivalKeepsNode(s, j, k, tail);
      HeardIsArrival(s, j + 1 + k, w);
      var t := NextNet(s, ArrivalOf(j, k, tail));
      SameNodeAudible(s, t, j, n, w);
      HearsAllIsRun(t, j, n, order[1..], tail, a, w);
    }
  }

  // ---------- the acknowledgement ----------

  /** meshx_lower_trans_receive at the sender, for acknowledgements: an unsegmented control PDU with opcode 0. */
  function TakesAck(s: Net, x: Network.NetIn): Net
    requires NodeOk(s.n)
  {
    if OwnSource(s.n, x.ctx.dst) && x.ctx.ctl && |x.pdu| >= 7 && x.pdu[0] % 128 == 0 then
      var f := ParseAck(x.pdu[1..7]);
      AckTaken(s, f.seqZero, f.block)
    else s
  }

  function AckFrame(a: Ack, b: MsgCtx): seq<byte> { [Segments.Header(b, false)] + AckPdu(SeqZero(a.ctx.seqAuth), a.block) }

  /** The context under which a receiver acknowledges a: a control message with opcode 0 back to the source, under the
      receiver's own number and IV index. */
  predicate AckContext(a: Ack, b: MsgCtx, w: Radio) {
    && b.ctl && b.opcode == 0 && b.src == a.ctx.dst && b.dst == a.ctx.src && Fits(b) && IsValidAddress(b.src) && IsValidAddress(b.dst)
    && (b.iv == w.txIndex || b.iv == (w.txIndex - 1) % 0x1_0000_0000)
  }

  function HearsAck(s: Net, a: Ack, b: MsgCtx, w: Radio): Net {
    if NodeOk(s.n) && Sendable(w, b, AckFrame(a, b)) then
      match Heard(w, w.txKeys, w.txIndex, b, AckFrame(a, b))
      case None => s
      case Some(x) => TakesAck(s, x)
    else s
  }

  /** The acknowledging node sends exactly that frame. */
  lemma AckIsSent(n: Node, a: Ack, ttl: nat, w: Radio)
    requires NodeOk(n) && IvValid(n.iv) && OwnSource(n, a.ctx.dst) && CountersOk(n) && n.iv.index < 0x1_0000_0000 && ttl < 128
    requires IsValidAddress(a.ctx.src) && IsValidAddress(a.ctx.dst) && a.ctx.src < 0x1_0000
    requires TxIv(n.iv) == w.txIndex || TxIv(n.iv) == (w.txIndex - 1) % 0x1_0000_0000
    ensures var d := SendAck(n, a.ctx.dst, a.ctx.src, ttl, SeqZero(a.ctx.seqAuth), a.block).log[|n.log|];
            d.use.OnAir? && AckContext(a, d.use.ctx, w) && d.use.frame == AckFrame(a, d.use.ctx)
  {
    hide AckPdu;
  }

  lemma HeardAckIsReturn(s: Net, a: Ack, b: MsgCtx, w: Radio)
    requires NodeOk(s.n) && IvValid(s.n.iv) && RadioOk(w) && AckContext(a, b, w) && Possible(s, AckReturns(a)) && a.block <= Bits(32)
    ensures HearsAck(s, a, b, w) == NextNet(s, AckReturns(a))
  {
    AckHeard(a, b, w);
    assert OwnSource(s.n, a.ctx.src) && b.dst == a.ctx.src;
    AckIs(s, a);
    hide NextNet, Heard, ParseAck, AckTaken, Sendable, Possible, NodeOk, RadioOk, AckContext, IvValid;
    var x := Heard(w, w.txKeys, w.txIndex, b, AckFrame(a, b)).value;
    assert HearsAck(s, a, b, w) == TakesAck(s, x);
  }

  lemma AckIs(s: Net, a: Ack)
    requires NodeOk(s.n) && IvValid(s.n.iv) && Possible(s, AckReturns(a))
    ensures NextNet(s, AckReturns(a)) == AckTaken(s, SeqZero(a.ctx.seqAuth), a.block)
  {
  }

  lemma AckHeard(a: Ack, b: MsgCtx, w: Radio)
    requires RadioOk(w) && AckContext(a, b, w) && a.block <= Bits(32)
    ensures Sendable(w, b, AckFrame(a, b))
    ensures var r := Heard(w, w.txKeys, w.txIndex, b, AckFrame(a, b));
            && r.Some? && r.value.ctx.ctl && r.value.ctx.dst == b.dst && |r.value.pdu| >= 7 && r.value.pdu[0] % 128 == 0
            && ParseAck(r.value.pdu[1..7]) == AckFields(SeqZero(a.ctx.seqAuth), a.block)
  {
    var f, z := AckFrame(a, b), SeqZero(a.ctx.seqAuth);
    assert |f| == 7 && f[0] == 0;
    assert f[1..] == AckPdu(z, a.block);
    hide AckPdu, ParseAck, Network.Packet, Network.Receive, Network.FirstIsRight, AckFrame;
    Network.NetRoundTrip(w.aes, w.txKeys, w.key, w.txPlace, w.txIndex, b, f);
    AckRoundTrip(z, a.block);
    var x := Heard(w, w.txKeys, w.txIndex, b, f).value;
    assert x.pdu[1..7] == x.pdu[..7][1..] && x.pdu[0] == x.pdu[..7][0];
  }

  // ---------- all together ----------

  /** The sender has ended the message as fully acknowledged, and what the receiver handed up decrypts to m. */
  ghost predicate ComesThrough(s: Net, k: Key, w: Radio, appKeys: seq<AppKey>, devKey: Block, m: seq<byte>) {
    k in s.done && exists d :: d in s.delivered && KeyOf(d.ctx) == k && UpperReceive(w.aes, appKeys, devKey, d.ctx, d.data) == Some(m)
  }

  /** Both addresses are valid and the sender's IV index is the receiver's or the one before. */
  predicate InRange(c: MsgCtx, w: Radio) {
    IsValidAddress(c.src) && IsValidAddress(c.dst) && (c.iv == w.rxIndex || c.iv == (w.rxIndex - 1) % 0x1_0000_0000)
  }

  lemma SentAudible(u: Net, j: nat, w: Radio)
    requires OnTheAir(u, j) && RadioOk(w) && InRange(MsgOf(u, j), w) && (MsgOf(u, j).ctl ==> MsgOf(u, j).opcode != 0)
    ensures AllAudible(u, j, CountOf(u, j), w)
  {
    hide RxInv, Sched, Fresh, Finished, SegPdu, SegCount, RadioOk, SentAt;
    assert Good(u.n);
    assert DrawOk(u.n.log, u.n.log[j]);
    forall k | 0 <= k < CountOf(u, j) ensures SegmentAudible(u, j, k, w) { SentAtIs(u, j, k); }
  }

  lemma SentAtIs(u: Net, j: nat, k: nat)
    requires AllSent(u.n.log, j) && k < CountOf(u, j)
    ensures j + 1 + k < |u.n.log|
    ensures var d := u.n.log[j + 1 + k];
            && d.use.OnAir? && d.use.ctx == MsgOf(u, j).(sqn := d.sqn)
            && |d.use.frame| == 4 + |SegData(u.n.log[j].use.pdu, MsgOf(u, j).ctl, k)|
  {
    assert SentAt(u.n.log, j, k);
    hide SegData, SegCount;
  }

  lemma AudibleTails(u: Net, j: nat, w: Radio) returns (tail: Tails)
    requires AllSent(u.n.log, j) && AllAudible(u, j, CountOf(u, j), w)
    ensures TailsFit(tail, u.n.log[j].use.pdu, MsgOf(u, j).ctl) && TailsAre(tail, u.n.log, j, CountOf(u, j), w)
  {
    tail := NetTails(u.n.log, j, CountOf(u, j), w);
    TheyFit(u, j, w, tail);
  }

  lemma NetTails(log: seq<Draw>, j: nat, n: nat, w: Radio) returns (tail: Tails)
    ensures TailsAre(tail, log, j, n, w)
  {
    hide TailOf;
    tail := k => TailOf(log, j + 1 + k, w);
  }

  lemma TheyFit(u: Net, j: nat, w: Radio, tail: Tails)
    requires AllSent(u.n.log, j) && AllAudible(u, j, CountOf(u, j), w) && TailsAre(tail, u.n.log, j, CountOf(u, j), w)
    ensures TailsFit(tail, u.n.log[j].use.pdu, MsgOf(u, j).ctl)
  {
    hide TailOf, SegData, SegCount, SentAt, NodeAudible;
    forall k | 0 <= k < CountOf(u, j) ensures |SegData(u.n.log[j].use.pdu, MsgOf(u, j).ctl, k)| + |tail(k)| == 16 {
      assert SegmentAudible(u, j, k, w);
      TailFitsAt(u, j, k, w);
    }
  }

  lemma TailFitsAt(u: Net, j: nat, k: nat, w: Radio)
    requires AllSent(u.n.log, j) && k < CountOf(u, j) && NodeAudible(u.n, j + 1 + k, w)
    ensures |SegData(u.n.log[j].use.pdu, MsgOf(u, j).ctl, k)| + |TailOf(u.n.log, j + 1 + k, w)| == 16
  {
    SegmentHeard(u.n, j + 1 + k, w);
    SentAtIs(u, j, k);
    hide NodeAudible, TailOf, SegData, SegCount, AllSent;
  }

  /** From every state a run can reach with a clear way: an accepted access message is encrypted, numbered, segmented
      and sent as network packets. Let the packets be heard in any order, each at least once and as often as the
      network likes; then the receiver has acknowledged the message, and when that acknowledgement's packet is heard,
      under whatever number and IV index the receiver sent it, the sender has ended the message and the receiver has
      decrypted exactly what was sent. */
  lemma SegmentedMessageGetsThrough(s: Net, w: Radio, appKeys: seq<AppKey>, devKey: Block, key: Block, k: nat,
                                    c: MsgCtx, m: seq<byte>, order: seq<nat>)
    requires RadioOk(w) && InRange(c, w)
    requires Inv(s) && !c.ctl && AccessGuard(c, |m|).None? && |m| <= 255
    requires var x := WithNumber(s.n, c);
             ClearWay(s, c, UpperPdu(w.aes, key, x, m)) && KeyInPlace(appKeys, devKey, x.(seg := true), key, k)
    requires var n := SegCount(|UpperPdu(w.aes, key, WithNumber(s.n, c), m)|, false);
             (forall i :: 0 <= i < |order| ==> order[i] < n) && Elems(order) == Bits(n)
    ensures NodeOk(s.n) && IvValid(s.n.iv)
    ensures var x := WithNumber(s.n, c);
            var pdu := UpperPdu(w.aes, key, x, m);
            && AccessSend(s.n, w.aes, key, c, m) == Do(s.n, Send(c, pdu)) && Possible(s, Local(Send(c, pdu)))
            && var u := HearsAll(NextNet(s, Local(Send(c, pdu))), |s.n.log|, order, w);
               exists a :: a in u.acks && forall b | AckContext(a, b, w) :: ComesThrough(HearsAck(u, a, b, w), KeyOf(x), w, appKeys, devKey, m)
  {
    var x := WithNumber(s.n, c);
    var pdu := UpperPdu(w.aes, key, x, m);
    hide *;
    var a := AirRun(s, w, appKeys, devKey, key, k, c, m, order);
    ClearFacts(s, c, pdu);
    AccessSendIs(s.n, w.aes, key, c, m);
  }

  lemma AccessSendIs(n: Node, aes: Aes, key: Block, c: MsgCtx, m: seq<byte>)
    requires NodeOk(n) && IvValid(n.iv) && AccessGuard(c, |m|).None? && Enabled(n, Send(c, UpperPdu(aes, key, WithNumber(n, c), m)))
    ensures AccessSend(n, aes, key, c, m) == Do(n, Send(c, UpperPdu(aes, key, WithNumber(n, c), m)))
  {
    hide UpperPdu, SendMessage;
  }

  lemma AirRun(s: Net, w: Radio, appKeys: seq<AppKey>, devKey: Block, key: Block, k: nat, c: MsgCtx, m: seq<byte>, order: seq<nat>)
    returns (a: Ack)
    requires RadioOk(w) && InRange(c, w)
    requires Inv(s) && !c.ctl && |m| <= 255
    requires var x := WithNumber(s.n, c);
             ClearWay(s, c, UpperPdu(w.aes, key, x, m)) && KeyInPlace(appKeys, devKey, x.(seg := true), key, k)
    requires var n := SegCount(|UpperPdu(w.aes, key, WithNumber(s.n, c), m)|, false);
             (forall i :: 0 <= i < |order| ==> order[i] < n) && Elems(order) == Bits(n)
    ensures NodeOk(s.n) && IvValid(s.n.iv)
    ensures var x := WithNumber(s.n, c);
            var pdu := UpperPdu(w.aes, key, x, m);
            && Possible(s, Local(Send(c, pdu)))
            && var u := HearsAll(NextNet(s, Local(Send(c, pdu))), |s.n.log|, order, w);
               a in u.acks && forall b | AckContext(a, b, w) :: ComesThrough(HearsAck(u, a, b, w), KeyOf(x), w, appKeys, devKey, m)
  {
    var x := WithNumber(s.n, c);
    var pdu, j := UpperPdu(w.aes, key, x, m), |s.n.log|;
    hide Inv, ClearWay, NextNet, NodeOk, IvValid, SegCount, UpperPdu, UpperReceive, KeyInPlace, Elems, Bits, Arrivals, FairRun, RunNet,
      RadioOk, Possible, Fair, AckContext, HearsAll, HearsAck, Completion.Holding, AllSent;
    SentIsUnderway(s, c, pdu);
    var u1 := NextNet(s, Local(Send(c, pdu)));
    SentAudible(u1, j, w);
    assert AllSent(u1.n.log, j);
    var tail := AudibleTails(u1, j, w);
    a := SentCompletes(s, c, pdu, order, tail);
    var vs := Arrivals(j, order, tail) + [AckReturns(a)];
    HandedUpDecrypts(s, vs, w.aes, appKeys, devKey, key, k, c, m);
    FirstStep(s, Local(Send(c, pdu)), vs);
    HearsAllIsRun(u1, j, CountOf(u1, j), order, tail, a, w);
    var u := HearsAll(u1, j, order, w);
    ClearFacts(s, c, pdu);
    AckInFlight(u, a);
    GetsIsComes(s, [Local(Send(c, pdu))] + vs, KeyOf(x), w, appKeys, devKey, m);
    forall b | AckContext(a, b, w) ensures ComesThrough(HearsAck(u, a, b, w), KeyOf(x), w, appKeys, devKey, m) {
      HeardAckIsReturn(u, a, b, w);
    }
  }

  lemma ClearFacts(s: Net, c: MsgCtx, pdu: seq<byte>)
    requires ClearWay(s, c, pdu)
    ensures NodeOk(s.n) && IvValid(s.n.iv) && Enabled(s.n, Send(c, pdu)) && Bits(SegCount(|pdu|, c.ctl)) <= Bits(32)
  {
  }

  lemma AckInFlight(u: Net, a: Ack)
    requires NodeOk(u.n) && Possible(u, AckReturns(a))
    ensures a in u.acks
  {
  }

  lemma GetsIsComes(s: Net, vs: seq<Event>, k: Key, w: Radio, appKeys: seq<AppKey>, devKey: Block, m: seq<byte>)
    requires GetsThrough(s, vs, k, w.aes, appKeys, devKey, m)
    ensures NodeOk(s.n) && IvValid(s.n.iv) && FairRun(s, vs) && ComesThrough(RunNet(s, vs), k, w, appKeys, devKey, m)
  {
  }

  lemma FirstStep(s: Net, v: Event, vs: seq<Event>)
    requires NodeOk(s.n) && IvValid(s.n.iv) && FairRun(s, [v] + vs)
    ensures Possible(s, v) && NodeOk(NextNet(s, v).n) && IvValid(NextNet(s, v).n.iv) && FairRun(NextNet(s, v), vs)
    ensures RunNet(s, [v] + vs) == RunNet(NextNet(s, v), vs)
  {
    hide Possible, NextNet, Fair;
    assert ([v] + vs)[0] == v && ([v] + vs)[1..] == vs;
  }
}
