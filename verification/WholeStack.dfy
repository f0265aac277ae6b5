// All layers together: an access message accepted by the access layer, encrypted, segmented or not, sent over
// the network layer, reassembled and decrypted comes back unchanged.

module WholeStack {
  import opened Bytes
  import opened Mesh
  import opened Segments
  import opened IvIndex
  import opened TxNode
  import opened RxNode
  import opened Scheduler
  import opened Messages
  import opened RxPools
  import opened Transport
  import opened Completion
  import opened UpperTransport
  import Network

  // ---------- frames over the network layer ----------

  /** What is left in the buffer behind the PDU. */
  function Rest(r: Option<Network.NetIn>, len: nat): seq<byte> {
    if r.Some? && len <= |r.value.pdu| then r.value.pdu[len..] else []
  }

  /** Every segment a node has put on the air reaches the receiver's lower transport as it was sent, with the
      context and the 20-octet buffer that the reassembly event takes. */
  lemma FrameReachesTransport(n: Node, i: nat, aes: Aes, keys: seq<Network.NetKey>, key: Network.NetKey, k: nat, index: nat)
    requires Good(n) && i < |n.log| && n.log[i].use.OnAir? && n.log[i].use.ctx.seg
    requires var c := n.log[i].use.ctx;
             && IsValidAddress(c.src) && IsValidAddress(c.dst)
             && (c.iv == index || c.iv == (index - 1) % 0x1_0000_0000)
    requires index < 0x1_0000_0000 && key.nid < 128 && Network.FirstIsRight(keys, key, k)
    ensures var c, f := n.log[i].use.ctx, n.log[i].use.frame;
            && Fits(c) && 4 <= |f| <= (if c.ctl then 12 else 16)
            && var r := Network.Receive(aes, keys, index, Network.Packet(aes, key, c, f), Network.PacketLen(c, f));
               r == Some(Network.NetIn(NetCtx(c), f + Rest(r, |f|), |f|)) && |f + Rest(r, |f|)| == 20
  {
    var d := n.log[i];
    var c, f := d.use.ctx, d.use.frame;
    assert DrawOk(n.log, d);
    var j, seg :| 0 <= j < |n.log| && IsFrameOf(d, n.log[j], seg);
    assert DrawOk(n.log, n.log[j]);
    hide SegPdu, Network.Packet, Network.Receive, Good, SegCount, SegData;
    SegDataLen(n.log[j].use.pdu, c.ctl, seg);
    Network.NetRoundTrip(aes, keys, key, k, index, c, f);
    var r := Network.Receive(aes, keys, index, Network.Packet(aes, key, c, f), Network.PacketLen(c, f)).value;
    assert r.pdu == f + r.pdu[|f|..];
  }

  // ---------- segmented messages ----------

  lemma BelongsSuffices(tx: MsgCtx, d: Delivery, w: Draw)
    requires Belongs(d.ctx, w) && w.use.ctx == tx && d.ctx.seg && !tx.ctl
    ensures SameForUpper(tx, d.ctx)
  {
  }

  /** Draw j numbered access message m, encrypted with a key the receiver finds. */
  predicate IsAccessMessage(n: Node, j: nat, aes: Aes, appKeys: seq<AppKey>, devKey: Block, key: Block, k: nat, m: seq<byte>) {
    && j < |n.log| && n.log[j].use.Message? && !n.log[j].use.ctx.ctl && OwnSource(n, n.log[j].src)
    && n.log[j].use.pdu == UpperPdu(aes, key, n.log[j].use.ctx, m)
    && KeyInPlace(appKeys, devKey, n.log[j].use.ctx, key, k) && n.log[j].sqn < SEQ_MAX
  }

  /** Whatever was handed up under the key of draw j decrypts to v. */
  ghost predicate ArrivesAs(s: Net, j: nat, aes: Aes, appKeys: seq<AppKey>, devKey: Block, v: seq<byte>) {
    j < |s.n.log| && s.n.log[j].use.Message? && forall d :: d in s.delivered && KeyOf(d.ctx) == KeyOf(s.n.log[j].use.ctx) ==>
      UpperReceive(aes, appKeys, devKey, d.ctx, d.data) == Some(v)
  }

  /** If the sender ended the message of draw j as fully acknowledged, it was handed up. */
  ghost predicate DoneMeansHandedUp(s: Net, j: nat) {
    && j < |s.n.log| && s.n.log[j].use.Message?
    && (KeyOf(s.n.log[j].use.ctx) in s.done ==> exists d :: d in s.delivered && KeyOf(d.ctx) == KeyOf(s.n.log[j].use.ctx))
  }

  /** Whatever the network does during the run: everything handed up under the key of a numbered access message
      decrypts to that message, cut to the low 8 bits of its length, and if the sender ended the message as fully
      acknowledged then it was handed up. */
  lemma SegmentedMessageArrives(s0: Net, vs: seq<Event>, s: Net, j: nat, aes: Aes, appKeys: seq<AppKey>, devKey: Block,
                                key: Block, k: nat, m: seq<byte>)
    requires Reached(s0, vs, s) && IsAccessMessage(s.n, j, aes, appKeys, devKey, key, k, m)
    ensures ArrivesAs(s, j, aes, appKeys, devKey, Cut(m)) && DoneMeansHandedUp(s, j)
  {
    hide *;
    ReachedInv(s0, vs, s);
    MessageArrives(s, j, aes, appKeys, devKey, key, k, m);
  }

  /** In particular a message of at most 255 octets comes back unchanged. */
  lemma ShortMessageArrivesUnchanged(s0: Net, vs: seq<Event>, s: Net, j: nat, aes: Aes, appKeys: seq<AppKey>, devKey: Block,
                                     key: Block, k: nat, m: seq<byte>)
    requires Reached(s0, vs, s) && IsAccessMessage(s.n, j, aes, appKeys, devKey, key, k, m) && |m| <= 255
    ensures ArrivesAs(s, j, aes, appKeys, devKey, m)
  {
    hide *;
    SegmentedMessageArrives(s0, vs, s, j, aes, appKeys, devKey, key, k, m);
    WholeIffShort(m);
  }

  /** With receivers that reset their slots, over all fair traffic: no condition on slots. */
  lemma SegmentedMessageArrivesWithReset(s0: Net, vs: seq<Event>, j: nat, aes: Aes, appKeys: seq<AppKey>, devKey: Block,
                                         key: Block, k: nat, m: seq<byte>)
    requires Start(s0) && AllReset(s0) && NodeOk(s0.n) && IvValid(s0.n.iv) && FairStepsRun(s0, vs)
    ensures FairRun(s0, vs)
    ensures var s := RunNet(s0, vs);
            IsAccessMessage(s.n, j, aes, appKeys, devKey, key, k, m) ==>
              ArrivesAs(s, j, aes, appKeys, devKey, Cut(m)) && DoneMeansHandedUp(s, j)
  {
    hide *;
    ResetRun(s0, vs);
    ResetReached(s0, vs);
    var s := RunNet(s0, vs);
    if IsAccessMessage(s.n, j, aes, appKeys, devKey, key, k, m) {
      SegmentedMessageArrives(s0, vs, s, j, aes, appKeys, devKey, key, k, m);
    }
  }

  lemma MessageArrives(s: Net, j: nat, aes: Aes, appKeys: seq<AppKey>, devKey: Block, key: Block, k: nat, m: seq<byte>)
    requires Inv(s) && IsAccessMessage(s.n, j, aes, appKeys, devKey, key, k, m)
    ensures ArrivesAs(s, j, aes, appKeys, devKey, Cut(m)) && DoneMeansHandedUp(s, j)
  {
    var c := s.n.log[j].use.ctx;
    if KeyOf(c) in s.done {
      assert Finished(s, KeyOf(c));
      var i :| 0 <= i < |s.n.log| && s.n.log[i].use.Message? && KeyOf(s.n.log[i].use.ctx) == KeyOf(c)
               && HasDelivered(s.delivered, KeyOf(c), s.n.log[i].use.pdu);
    }
    hide UpperPdu, UpperReceive, Inv, KeyInPlace;
    forall d | d in s.delivered && KeyOf(d.ctx) == KeyOf(c)
      ensures UpperReceive(aes, appKeys, devKey, d.ctx, d.data) == Some(Cut(m))
    {
      DeliveredIs(s, j, d);
      BelongsSuffices(c, d, s.n.log[j]);
      UpperDecrypts(aes, appKeys, devKey, key, k, c, d.ctx, m);
    }
  }

  /** The send step numbers the message with the very context it was encrypted under. */
  lemma AccessSendIsNumbered(n: Node, aes: Aes, key: Block, c: MsgCtx, m: seq<byte>)
    requires Good(n) && Sched(n) && Enabled(n, Send(c, [])) && !c.ctl && AccessGuard(c, |m|).None?
    ensures var r, w := AccessSend(n, aes, key, c, m), WithNumber(n, c);
            && |r.log| > |n.log|
            && r.log[|n.log|].use == if Segmented(c, |m|) then Message(w.(seg := true), UpperPdu(aes, key, w.(seg := true), m))
                                     else OnAir(w, [Header(w, false)] + UpperPdu(aes, key, w, m))
  {
    hide UpperPdu;
    var w := WithNumber(n, c);
    var pdu := UpperPdu(aes, key, w, m);
    SegDoesNotMatter(aes, key, w, m);
    if Segmented(c, |m|) {
      StoredAfterDraw(n, c, pdu);
    }
  }

  lemma SegDoesNotMatter(aes: Aes, key: Block, c: MsgCtx, m: seq<byte>)
    ensures UpperPdu(aes, key, c.(seg := true), m) == UpperPdu(aes, key, c, m)
  {
    assert AccessNonce(c.(seg := true)) == AccessNonce(c);
  }

  lemma StoredAfterDraw(n: Node, c: MsgCtx, pdu: seq<byte>)
    requires Good(n) && Sched(n) && Enabled(n, Send(c, pdu)) && pdu != [] && IsValidAddress(c.dst) && !c.ctl
    requires NeedsSegments(c, |pdu|)
    ensures var r, w := SendMessage(n, c, pdu), WithNumber(n, c).(seg := true);
            |r.log| > |n.log| && r.log[|n.log|].use == Message(w, pdu)
  {
    hide StoreMessage, Sched;
    var w := WithNumber(n, c).(seg := true);
    var d := Drawn(n, w.src, w.iv, Message(w, pdu));
    DrawnGood(n, w.src, w.iv, Message(w, pdu));
    SameListsSched(n, d);
    var t := TxTask(w, pdu, Bits(SegCount(|pdu|, w.ctl)), {}, 0);
    assert IsMessageOf(d.log[|n.log|], t);
    StoreMessageGood(d, w, pdu);
    hide Drawn, Good;
    assert SendMessage(n, c, pdu) == StoreMessage(d, w, pdu);
  }

  // ---------- a segmented message gets through ----------

  /** Some run that begins with vs hands up a message that decrypts to v and ends it at the sender. */
  ghost predicate GetsThrough(s: Net, vs: seq<Event>, k: Key, aes: Aes, appKeys: seq<AppKey>, devKey: Block, v: seq<byte>) {
    && NodeOk(s.n) && IvValid(s.n.iv) && FairRun(s, vs) && k in RunNet(s, vs).done
    && exists d :: d in RunNet(s, vs).delivered && KeyOf(d.ctx) == k && UpperReceive(aes, appKeys, devKey, d.ctx, d.data) == Some(v)
  }

  lemma HandedUpDecrypts(s: Net, vs: seq<Event>, aes: Aes, appKeys: seq<AppKey>, devKey: Block, key: Block, k: nat,
                         c: MsgCtx, m: seq<byte>)
    requires Inv(s) && NodeOk(s.n) && IvValid(s.n.iv) && !c.ctl && |m| <= 255
    requires var w := WithNumber(s.n, c);
             var pdu := UpperPdu(aes, key, w, m);
             && ClearWay(s, c, pdu) && KeyInPlace(appKeys, devKey, w.(seg := true), key, k)
             && RunCompletes(s, [Local(Send(c, pdu))] + vs, KeyOf(w), pdu)
    ensures var w := WithNumber(s.n, c);
            GetsThrough(s, [Local(Send(c, UpperPdu(aes, key, w, m)))] + vs, KeyOf(w), aes, appKeys, devKey, m)
  {
    hide Inv, ClearWay, NextNet, NodeOk, IvValid, UpperPdu, UpperReceive, KeyInPlace, FairRun, RunNet;
    var w := WithNumber(s.n, c);
    var pdu := UpperPdu(aes, key, w, m);
    SentStaysLogged(s, c, pdu, vs);
    SegDoesNotMatter(aes, key, w, m);
    var u := RunNet(s, [Local(Send(c, pdu))] + vs);
    MessageArrives(u, |s.n.log|, aes, appKeys, devKey, key, k, m);
    WholeIffShort(m);
  }

  // ---------- messages sent whole ----------

  /** Lower transport on an unsegmented access PDU: the header fields, SZMIC 0 and the sequence number as SeqAuth. */
  function UnsegCtx(c: MsgCtx, first: byte): MsgCtx {
    c.(akf := first / 64 % 2 == 1, aid := first % 64, seg := false, szmic := false, seqAuth := c.sqn)
  }

  /** An accepted access message that fits one PDU goes through all four layers and back, whatever else is in
      the air: the receiver decrypts exactly the message. */
  lemma UnsegmentedMessageArrives(n: Node, aes: Aes, netKeys: seq<Network.NetKey>, netKey: Network.NetKey, nk: nat,
                                  index: nat, appKeys: seq<AppKey>, devKey: Block, key: Block, k: nat, c: MsgCtx, m: seq<byte>)
    requires Good(n) && Sched(n) && Enabled(n, Send(c, [])) && !c.ctl
    requires AccessGuard(c, |m|).None? && !Segmented(c, |m|)
    requires netKey.nid < 128 && Network.FirstIsRight(netKeys, netKey, nk) && KeyInPlace(appKeys, devKey, c, key, k)
    requires index < 0x1_0000_0000 && (c.iv == index || c.iv == (index - 1) % 0x1_0000_0000)
    ensures var d := AccessSend(n, aes, key, c, m).log[|n.log|];
            && d.use.OnAir? && Fits(d.use.ctx) && |d.use.frame| <= 16 && !d.use.ctx.ctl
            && var r := Network.Receive(aes, netKeys, index, Network.Packet(aes, netKey, d.use.ctx, d.use.frame),
                                        Network.PacketLen(d.use.ctx, d.use.frame));
            && r.Some? && 1 <= r.value.len <= |r.value.pdu| && r.value.pdu[0] < 128
            && UpperReceive(aes, appKeys, devKey, UnsegCtx(r.value.ctx, r.value.pdu[0]), r.value.pdu[1..r.value.len]) == Some(m)
  {
    hide UpperPdu, UpperReceive, AccessSend, Network.Packet, Network.Receive, Partition, WaitsOr, Traced, ListGood, SendMessage;
    var w := WithNumber(n, c);
    var pdu := UpperPdu(aes, key, w, m);
    AccessSendIsNumbered(n, aes, key, c, m);
    var f := [Header(w, false)] + pdu;
    assert Fits(w) by { CounterFits(n, c); }
    WholeFrameHeader(w);
    hide Header, Fits, Good, Sched;
    Network.NetRoundTrip(aes, netKeys, netKey, nk, index, w, f);
    var r := Network.Receive(aes, netKeys, index, Network.Packet(aes, netKey, w, f), Network.PacketLen(w, f)).value;
    assert r.pdu[0] == r.pdu[..|f|][0] && r.pdu[1..r.len] == r.pdu[..|f|][1..];
    var u := UnsegCtx(r.ctx, f[0]);
    UpperDecrypts(aes, appKeys, devKey, key, k, w, u, m);
    WholeIffShort(m);
  }

  lemma CounterFits(n: Node, c: MsgCtx)
    requires Good(n) && Enabled(n, Send(c, []))
    ensures Fits(WithNumber(n, c))
  {
  }

  lemma WholeFrameHeader(c: MsgCtx)
    requires Fits(c) && !c.ctl && (!c.akf ==> c.aid == 0)
    ensures var h := Header(c, false); h < 128 && (h / 64 % 2 == 1 <==> c.akf) && h % 64 == c.aid
  {
  }
}
