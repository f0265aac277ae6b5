// An acknowledgement names its message by SeqZero alone, the low 13 bits of SeqAuth. When that ends the
// right task, and exactly when it ends a task whose message nobody has received.

module AckMatching {
  import opened Bytes
  import opened Mesh
  import opened Segments
  import opened IvIndex
  import opened TxNode
  import opened RxNode
  import opened Scheduler
  import opened Messages
  import opened Freshness
  import opened RxPools
  import opened Transport

  predicate DistinctSeqZero(n: Node)
    requires NodeOk(n)
  {
    forall i, j | 0 <= i < |n.active| && 0 <= j < |n.active|
                  && SeqZero(n.tasks[n.active[i]].ctx.seqAuth) == SeqZero(n.tasks[n.active[j]].ctx.seqAuth) :: i == j
  }

  lemma {:induction false} FoundFirst(n: Node, k: nat, i: nat)
    requires NodeOk(n) && k <= i < |n.active|
    requires forall j :: k <= j < i ==> SeqZero(n.tasks[n.active[j]].ctx.seqAuth) != SeqZero(n.tasks[n.active[i]].ctx.seqAuth)
    ensures AckedSlot(n, SeqZero(n.tasks[n.active[i]].ctx.seqAuth), k) == Some(n.active[i])
    decreases i - k
  {
    if k < i { FoundFirst(n, k + 1, i); }
  }

  /** Every active task can be acknowledged if and only if no two of them share a SeqZero. */
  lemma EveryTaskAddressableIffDistinct(n: Node)
    requires Sched(n)
    ensures (forall i :: 0 <= i < |n.active| ==>
               AckedSlot(n, SeqZero(n.tasks[n.active[i]].ctx.seqAuth), 0) == Some(n.active[i])) <==> DistinctSeqZero(n)
  {
    if DistinctSeqZero(n) {
      forall i | 0 <= i < |n.active|
        ensures AckedSlot(n, SeqZero(n.tasks[n.active[i]].ctx.seqAuth), 0) == Some(n.active[i])
      {
        FoundFirst(n, 0, i);
      }
    } else {
      var i, j :| 0 <= i < |n.active| && 0 <= j < |n.active| && i != j
                  && SeqZero(n.tasks[n.active[i]].ctx.seqAuth) == SeqZero(n.tasks[n.active[j]].ctx.seqAuth);
      ActiveDistinct(n, i, j);
    }
  }

  lemma ActiveDistinct(n: Node, i: nat, j: nat)
    requires Sched(n) && i < |n.active| && j < |n.active| && i != j
    ensures n.active[i] != n.active[j]
  {
    assert n.tasks[n.active[i]].ctx.dst != n.tasks[n.active[j]].ctx.dst;
  }

  // ---------- a late acknowledgement ----------

  /** The sequence window holds for all segments of a message that is not too old. */
  lemma {:induction false} FreshTaskSends(n: Node, s: nat, i: nat)
    requires s < |n.tasks| && i <= TaskCount(n.tasks[s]) <= MAX_SEGMENTS
    requires n.tasks[s].ctx.seqAuth <= Next(n, n.tasks[s].ctx.src) <= n.tasks[s].ctx.seqAuth + SEQ_ZERO_RANGE - TaskCount(n.tasks[s]) + i
    requires CountersOk(n)
    ensures SendFrom(n, s, i).ok
    decreases TaskCount(n.tasks[s]) - i
  {
    hide SegPdu;
    if i < TaskCount(n.tasks[s]) {
      if i in n.tasks[s].blockAck {
        FreshTaskSends(n, s, i + 1);
      } else {
        FreshTaskSends(SendOne(n, s, i).node, s, i + 1);
      }
    }
  }

  /** The number of the first segment of message c: the next one, or the one after that if c draws its own first. */
  function FirstNumber(n: Node, c: MsgCtx): nat {
    if c.ctl || !OwnSource(n, c.src) || Next(n, c.src) == SEQ_MAX then Next(n, c.src) else Next(n, c.src) + 1
  }

  /** Sending c would segment it, and nothing stands in the way. A control message's SeqAuth, which its caller drew, is
      not so old that its segments leave the window. */
  predicate Unhindered(n: Node, c: MsgCtx, pdu: seq<byte>) {
    && NodeOk(n) && IvValid(n.iv) && !DstActive(n, c.dst) && n.idle != [] && n.idle[0] !in n.active
    && OwnSource(n, c.src)
    && pdu != [] && IsValidAddress(c.dst) && NeedsSegments(c, |pdu|) && SegCount(|pdu|, c.ctl) <= MAX_SEGMENTS
    && (c.ctl ==> c.seqAuth <= Next(n, c.src) && Next(n, c.src) + SegCount(|pdu|, c.ctl) <= c.seqAuth + SEQ_ZERO_RANGE)
  }

  /** The message has its number and a slot in the active list; no segment has been sent. */
  function Started(n: Node, c: MsgCtx, pdu: seq<byte>): Node
    requires Unhindered(n, c, pdu)
  {
    var s, d := n.idle[0], WithNumber(n, c).(seg := true);
    var m := PutToUse(n, d, SeqAuthUse(d, pdu));
    Activate(m.(idle := m.idle[1..], tasks := m.tasks[s := TxTask(d, pdu, Bits(SegCount(|pdu|, c.ctl)), {}, 0)]), s)
  }

  lemma StartedSends(n: Node, c: MsgCtx, pdu: seq<byte>)
    requires Unhindered(n, c, pdu) && CountersOk(n)
    ensures SendMessage(n, c, pdu) == SendFrom(Started(n, c, pdu), n.idle[0], 0).node
  {
    FirstBurstSends(n, c, pdu);
    StartIs(n, c, pdu);
    hide *;
  }

  lemma FirstBurstSends(n: Node, c: MsgCtx, pdu: seq<byte>)
    requires Unhindered(n, c, pdu) && CountersOk(n)
    ensures SendFrom(Started(n, c, pdu), n.idle[0], 0).ok
  {
    hide SendFrom;
    FreshTaskSends(Started(n, c, pdu), n.idle[0], 0);
  }

  lemma StartIs(n: Node, c: MsgCtx, pdu: seq<byte>)
    requires Unhindered(n, c, pdu) && SendFrom(Started(n, c, pdu), n.idle[0], 0).ok
    ensures SendMessage(n, c, pdu) == SendFrom(Started(n, c, pdu), n.idle[0], 0).node
  {
    hide SendFrom, SegCount, IsValidAddress;
    var s, d := n.idle[0], WithNumber(n, c).(seg := true);
    var m := PutToUse(n, d, SeqAuthUse(d, pdu));
    var f := m.(idle := m.idle[1..], tasks := m.tasks[s := TxTask(d, pdu, Bits(SegCount(|pdu|, c.ctl)), {}, 0)]);
    assert forall k :: 0 <= k < |n.active| ==> f.tasks[n.active[k]] == n.tasks[n.active[k]];
    assert !DstActive(f, c.dst) && !AlreadySending(m, d.dst, d.seqAuth) && !AlreadySending(n, d.dst, d.seqAuth);
  }

  /** A message that is segmented and started at once becomes the last active task; the others stay as they are. */
  lemma SendActivates(n: Node, c: MsgCtx, pdu: seq<byte>)
    requires Unhindered(n, c, pdu) && CountersOk(n)
    ensures var r, q := SendMessage(n, c, pdu), WithNumber(n, c).seqAuth;
            && r.active == n.active + [n.idle[0]] && n.idle[0] < |r.tasks| && |r.tasks| == |n.tasks|
            && (forall x :: 0 <= x < |n.tasks| && x != n.idle[0] ==> r.tasks[x] == n.tasks[x])
            && r.tasks[n.idle[0]].segBits == Bits(SegCount(|pdu|, c.ctl))
            && r.tasks[n.idle[0]].ctx.seqAuth == q
            && KeyOf(r.tasks[n.idle[0]].ctx) == KeyOf(WithNumber(n, c))
  {
    StartedSends(n, c, pdu);
  }

  lemma NewKeyUnknown(s: Net, c: MsgCtx, pdu: seq<byte>, k: Key)
    requires Inv(s) && OwnSource(s.n, c.src) && NeedsSegments(c, |pdu|) && Dutiful(s.n, Send(c, pdu))
    requires WithNumber(s.n, c).seqAuth < SEQ_MAX && k == KeyOf(WithNumber(s.n, c))
    ensures k !in s.done && (forall d :: d in s.delivered ==> KeyOf(d.ctx) != k)
    ensures forall i :: 0 <= i < |s.n.active| ==> KeyOf(s.n.tasks[s.n.active[i]].ctx) != k
  {
    forall j | 0 <= j < |s.n.log| && s.n.log[j].use.Message? ensures KeyOf(s.n.log[j].use.ctx) != k {
      assert DrawOk(s.n.log, s.n.log[j]);
    }
    forall d | d in s.delivered ensures KeyOf(d.ctx) != k { assert Faithful(s, d); }
    forall i | 0 <= i < |s.n.active| ensures KeyOf(s.n.tasks[s.n.active[i]].ctx) != k {
      assert TaskGood(s.n, s.n.tasks[s.n.active[i]]);
    }
  }

  /** No active task has this SeqZero. */
  predicate SeqZeroFree(n: Node, z: nat)
    requires NodeOk(n)
  {
    forall i :: 0 <= i < |n.active| ==> SeqZero(n.tasks[n.active[i]].ctx.seqAuth) != z
  }

  /** The acknowledgement finds the new task, at the end of the list, only if it finds no earlier one. */
  lemma {:induction false} SlotAppended(n: Node, r: Node, s: nat, z: nat, k: nat)
    requires NodeOk(n) && NodeOk(r) && r.active == n.active + [s] && |r.tasks| == |n.tasks| && s < |r.tasks| && k <= |n.active|
    requires forall i :: 0 <= i < |n.active| ==> r.tasks[n.active[i]] == n.tasks[n.active[i]]
    ensures AckedSlot(r, z, k) == if AckedSlot(n, z, k).Some? then AckedSlot(n, z, k)
                                  else if SeqZero(r.tasks[s].ctx.seqAuth) == z then Some(s) else None
    decreases |n.active| - k
  {
    if k < |n.active| {
      assert r.active[k] == n.active[k];
      SlotAppended(n, r, s, z, k + 1);
    } else {
      assert r.active[k] == s && AckedSlot(r, z, k + 1) == None;
    }
  }

  lemma {:induction false} SlotKnown(n: Node, z: nat, k: nat)
    requires NodeOk(n) && k <= |n.active|
    ensures AckedSlot(n, z, k).Some? <==> exists i :: k <= i < |n.active| && SeqZero(n.tasks[n.active[i]].ctx.seqAuth) == z
    decreases |n.active| - k
  {
    if k < |n.active| { SlotKnown(n, z, k + 1); }
  }

  /** An acknowledgement goes to the first active task with its SeqZero. */
  lemma {:induction false} SlotIsFirst(n: Node, z: nat, k: nat) returns (i: nat)
    requires NodeOk(n) && k <= |n.active|
    ensures k <= i <= |n.active| && (forall j :: k <= j < i ==> SeqZero(n.tasks[n.active[j]].ctx.seqAuth) != z)
    ensures i < |n.active| ==> SeqZero(n.tasks[n.active[i]].ctx.seqAuth) == z
    ensures AckedSlot(n, z, k) == if i < |n.active| then Some(n.active[i]) else None
    decreases |n.active| - k
  {
    if k == |n.active| || SeqZero(n.tasks[n.active[k]].ctx.seqAuth) == z { i := k; } else { i := SlotIsFirst(n, z, k + 1); }
  }

  /** A sender, busy with other destinations or not, starts a new message while an acknowledgement for an earlier one,
      with as many segments, is still in flight. That acknowledgement ends the new message's task, as if every segment
      had been received, if and only if the two share a SeqZero and no other active task has it; nobody has received
      the new message either way. */
  lemma LateAckEndsNewMessageIffSameSeqZero(s: Net, a: Ack, c: MsgCtx, pdu: seq<byte>)
    requires Inv(s) && a in s.acks && OwnSource(s.n, a.ctx.src)
    requires Unhindered(s.n, c, pdu) && Enabled(s.n, Send(c, pdu))
    requires a.block == Bits(SegCount(|pdu|, c.ctl)) && WithNumber(s.n, c).seqAuth < SEQ_MAX && Dutiful(s.n, Send(c, pdu))
    ensures var u, z := NextNet(s, Local(Send(c, pdu))), SeqZero(a.ctx.seqAuth);
            var k := KeyOf(WithNumber(s.n, c));
            && NodeOk(u.n) && IvValid(u.n.iv) && Possible(u, AckReturns(a))
            && (k in NextNet(u, AckReturns(a)).done <==> SeqZero(WithNumber(s.n, c).seqAuth) == z && SeqZeroFree(s.n, z))
            && !Finished(NextNet(u, AckReturns(a)), k)
  {
    var k, z := KeyOf(WithNumber(s.n, c)), SeqZero(a.ctx.seqAuth);
    assert Good(s.n);
    NewKeyUnknown(s, c, pdu, k);
    var u := NextNet(s, Local(Send(c, pdu)));
    SentWithAck(s, a, c, pdu);
    SlotKnown(s.n, z, 0);
    hide Inv, NodeOk, SegCount, Bits, Good, Possible, NextNet, SendMessage, AckedSlot;
    AckVerdict(s.n, u, a, s.n.idle[0], k);
    NotFinished(s, NextNet(u, AckReturns(a)), k);
  }

  lemma SentWithAck(s: Net, a: Ack, c: MsgCtx, pdu: seq<byte>)
    requires NodeInv(s.n) && a in s.acks && OwnSource(s.n, a.ctx.src) && Unhindered(s.n, c, pdu) && Enabled(s.n, Send(c, pdu))
    ensures var u, x, z := NextNet(s, Local(Send(c, pdu))), s.n.idle[0], SeqZero(a.ctx.seqAuth);
            && NodeOk(u.n) && IvValid(u.n.iv) && Possible(u, AckReturns(a)) && u == s.(n := u.n) && x < |u.n.tasks|
            && |u.n.tasks| == |s.n.tasks|
            && (forall i :: 0 <= i < |s.n.active| ==> u.n.tasks[s.n.active[i]] == s.n.tasks[s.n.active[i]])
            && u.n.tasks[x].segBits == Bits(SegCount(|pdu|, c.ctl)) && KeyOf(u.n.tasks[x].ctx) == KeyOf(WithNumber(s.n, c))
            && u.n.tasks[x].ctx.seqAuth == WithNumber(s.n, c).seqAuth
            && AckedSlot(u.n, z, 0) == if AckedSlot(s.n, z, 0).Some? then AckedSlot(s.n, z, 0)
                                       else if SeqZero(WithNumber(s.n, c).seqAuth) == z then Some(x) else None
  {
    SentSlots(s.n, c, pdu, SeqZero(a.ctx.seqAuth));
    SentStaysValid(s.n, c, pdu);
    SendIsNext(s, c, pdu);
    var u := NextNet(s, Local(Send(c, pdu)));
    assert OwnSource(u.n, a.ctx.src);
    hide *;
    AckPossible(u, a);
  }

  lemma SendIsNext(s: Net, c: MsgCtx, pdu: seq<byte>)
    requires NodeOk(s.n) && IvValid(s.n.iv) && Enabled(s.n, Send(c, pdu))
    ensures Do(s.n, Send(c, pdu)) == SendMessage(s.n, c, pdu)
    ensures Possible(s, Local(Send(c, pdu))) && NextNet(s, Local(Send(c, pdu))) == s.(n := SendMessage(s.n, c, pdu))
  {
    hide SendMessage;
  }

  lemma AckPossible(u: Net, a: Ack)
    requires NodeOk(u.n) && a in u.acks && OwnSource(u.n, a.ctx.src)
    ensures Possible(u, AckReturns(a))
  {
  }

  lemma SentSlots(n: Node, c: MsgCtx, pdu: seq<byte>, z: nat)
    requires NodeInv(n) && Unhindered(n, c, pdu) && Enabled(n, Send(c, pdu))
    ensures var r, x := SendMessage(n, c, pdu), n.idle[0];
            && NodeOk(r) && x < |r.tasks| && |r.tasks| == |n.tasks|
            && (forall i :: 0 <= i < |n.active| ==> r.tasks[n.active[i]] == n.tasks[n.active[i]])
            && r.tasks[x].segBits == Bits(SegCount(|pdu|, c.ctl)) && KeyOf(r.tasks[x].ctx) == KeyOf(WithNumber(n, c))
            && r.tasks[x].ctx.seqAuth == WithNumber(n, c).seqAuth
            && AckedSlot(r, z, 0) == if AckedSlot(n, z, 0).Some? then AckedSlot(n, z, 0)
                                     else if SeqZero(WithNumber(n, c).seqAuth) == z then Some(x) else None
  {
    assert CountersOk(n);
    SendActivates(n, c, pdu);
    hide SendMessage, NodeInv, Bits, SegCount, AckedSlot;
    SlotAppended(n, SendMessage(n, c, pdu), n.idle[0], z, 0);
  }

  /** Whether key k is among those ended by acknowledgement a. */
  lemma AckVerdict(n: Node, u: Net, a: Ack, x: nat, k: Key)
    requires NodeOk(n) && NodeOk(u.n) && IvValid(u.n.iv) && Possible(u, AckReturns(a)) && k !in u.done && x < |u.n.tasks|
    requires |u.n.tasks| == |n.tasks| && (forall i :: 0 <= i < |n.active| ==> u.n.tasks[n.active[i]] == n.tasks[n.active[i]])
    requires forall i :: 0 <= i < |n.active| ==> KeyOf(n.tasks[n.active[i]].ctx) != k
    requires u.n.tasks[x].segBits == a.block && KeyOf(u.n.tasks[x].ctx) == k
    requires var z := SeqZero(a.ctx.seqAuth);
             AckedSlot(u.n, z, 0) == if AckedSlot(n, z, 0).Some? then AckedSlot(n, z, 0)
                                     else if SeqZero(u.n.tasks[x].ctx.seqAuth) == z then Some(x) else None
    ensures var z := SeqZero(a.ctx.seqAuth);
            && (k in NextNet(u, AckReturns(a)).done <==> SeqZero(u.n.tasks[x].ctx.seqAuth) == z && AckedSlot(n, z, 0).None?)
            && NextNet(u, AckReturns(a)).delivered == u.delivered
  {
    var f := AckedSlot(n, SeqZero(a.ctx.seqAuth), 0);
    if f.Some? { var i := FirstIndex(n.active, f.value); }
    hide ReceiveAck, AckedSlot;
  }

  lemma NotFinished(s: Net, u: Net, k: Key)
    requires (forall d :: d in s.delivered ==> KeyOf(d.ctx) != k) && u.delivered == s.delivered
    ensures !Finished(u, k)
  {
  }

  /** What keeps an acknowledgement from ending another message's task: no active task of another message has its
      SeqZero. A sender can see that from its active list. */
  lemma EndsItsOwnTaskIfSeqZeroIsItsOwn(n: Node, a: Ack)
    requires NodeOk(n)
    requires forall i :: 0 <= i < |n.active| && SeqZero(n.tasks[n.active[i]].ctx.seqAuth) == SeqZero(a.ctx.seqAuth) ==>
               KeyOf(n.tasks[n.active[i]].ctx) == KeyOf(a.ctx)
    ensures EndsItsOwnTask(n, a)
  {
    var f := AckedSlot(n, SeqZero(a.ctx.seqAuth), 0);
    if f.Some? { var i := FirstIndex(n.active, f.value); }
  }

  lemma SentStaysValid(n: Node, c: MsgCtx, pdu: seq<byte>)
    requires NodeInv(n) && Enabled(n, Send(c, pdu))
    ensures var r := Do(n, Send(c, pdu)); NodeOk(r) && IvValid(r.iv) && Extends(n, r)
  {
    DoGood(n, Send(c, pdu));
    DoSched(n, Send(c, pdu));
  }

  lemma OneActive(n: Node, z: nat)
    requires NodeOk(n) && |n.active| == 1
    ensures AckedSlot(n, z, 0) == if SeqZero(n.tasks[n.active[0]].ctx.seqAuth) == z then Some(n.active[0]) else None
  {
    assert AckedSlot(n, z, 1) == None;
  }
}
