// An idle sender with numbers to spare: the draws by which a segmented message and all its segments go out.

module Bursts {
  import opened Bytes
  import opened Mesh
  import opened Segments
  import opened TxNode
  import opened Messages
  import opened AckMatching

  // ---------- the segment loop ----------

  /** The segments from i on that have not been acknowledged. */
  function Missing(t: TxTask, i: nat): seq<nat>
    decreases TaskCount(t) - i
  {
    if i >= TaskCount(t) then [] else if i in t.blockAck then Missing(t, i + 1) else [i] + Missing(t, i + 1)
  }

  lemma {:induction false} MissingInRange(t: TxTask, i: nat)
    ensures forall x :: 0 <= x < |Missing(t, i)| ==> i <= Missing(t, i)[x] < TaskCount(t)
    decreases TaskCount(t) - i
  {
    if i < TaskCount(t) { MissingInRange(t, i + 1); }
  }

  /** Segments under consecutive numbers from q on, each its own number, until one is outside the window: for that one
      a number is used up and nothing is sent. A counter at its maximum, or of no element, stays where it is. */
  function Outgoing(c: MsgCtx, pdu: seq<byte>, segments: seq<nat>, q: nat, counts: bool): seq<Draw>
    requires forall x :: 0 <= x < |segments| ==> segments[x] < SegCount(|pdu|, c.ctl)
  {
    if segments == [] then []
    else if !InWindow(q, c.seqAuth) then [Draw(c.src, c.iv, q, Refused)]
    else [Draw(c.src, c.iv, q, OnAir(c.(sqn := q), SegPdu(c, pdu, segments[0])))]
         + Outgoing(c, pdu, segments[1..], if counts && q != SEQ_MAX then q + 1 else q, counts)
  }

  lemma {:induction false} OutgoingIgnoresSqn(c: MsgCtx, x: nat, pdu: seq<byte>, segments: seq<nat>, q: nat, counts: bool)
    requires forall x :: 0 <= x < |segments| ==> segments[x] < SegCount(|pdu|, c.ctl)
    ensures Outgoing(c.(sqn := x), pdu, segments, q, counts) == Outgoing(c, pdu, segments, q, counts)
    decreases |segments|
  {
    hide SegCount;
    if segments != [] {
      SegDrawIgnoresSqn(c, x, pdu, 0, segments[0]);
      OutgoingIgnoresSqn(c, x, pdu, segments[1..], if counts && q != SEQ_MAX then q + 1 else q, counts);
    }
  }

  lemma {:induction false} MissingIgnoresCtx(t: TxTask, u: TxTask, i: nat)
    requires u.blockAck == t.blockAck && TaskCount(u) == TaskCount(t)
    ensures Missing(u, i) == Missing(t, i)
    decreases TaskCount(t) - i
  {
    if i < TaskCount(t) { MissingIgnoresCtx(t, u, i + 1); }
  }

  ghost predicate AllOnAir(ds: seq<Draw>) { forall x :: 0 <= x < |ds| ==> ds[x].use.OnAir? }

  /** What the loop draws from segment i on. */
  function LoopDraws(n: Node, s: nat, i: nat): seq<Draw>
    requires s < |n.tasks|
  {
    var t := n.tasks[s];
    MissingInRange(t, i);
    Outgoing(t.ctx, t.pdu, Missing(t, i), Next(n, t.ctx.src), OwnSource(n, t.ctx.src))
  }

  /** Exactly what one call of the segment loop draws and sends, and whether it reports success. */
  lemma {:induction false} SendsMissingInOrder(n: Node, s: nat, i: nat)
    requires s < |n.tasks|
    ensures SendFrom(n, s, i).node.log == n.log + LoopDraws(n, s, i) && (SendFrom(n, s, i).ok <==> AllOnAir(LoopDraws(n, s, i)))
    decreases TaskCount(n.tasks[s]) - i
  {
    hide SegPdu, SegCount, AllOnAir;
    var t := n.tasks[s];
    if i >= TaskCount(t) {
      NothingLeft(n, s, i);
    } else if i in t.blockAck {
      SendsMissingInOrder(n, s, i + 1);
      assert LoopDraws(n, s, i) == LoopDraws(n, s, i + 1);
    } else {
      var r := SendOne(n, s, i);
      var d := r.node.log[|n.log|];
      OneLess(n, s, i);
      if r.ok {
        SendsMissingInOrder(r.node, s, i + 1);
        hide LoopDraws, SendOne, Missing;
        FirstOnAir(d, LoopDraws(r.node, s, i + 1));
        Joined(n.log, [d], LoopDraws(r.node, s, i + 1));
      } else {
        NotOnAir(d);
      }
    }
  }

  lemma NothingLeft(n: Node, s: nat, i: nat)
    requires s < |n.tasks| && i >= TaskCount(n.tasks[s])
    ensures LoopDraws(n, s, i) == [] && AllOnAir([]) && n.log + [] == n.log
  {
  }

  lemma FirstOnAir(d: Draw, rest: seq<Draw>)
    requires d.use.OnAir?
    ensures AllOnAir([d] + rest) <==> AllOnAir(rest)
  {
    if AllOnAir([d] + rest) { assert forall x :: 0 <= x < |rest| ==> ([d] + rest)[x + 1] == rest[x]; }
  }

  lemma NotOnAir(d: Draw)
    requires !d.use.OnAir?
    ensures !AllOnAir([d])
  {
    assert !([d][0].use.OnAir?);
  }

  lemma OneLess(n: Node, s: nat, i: nat)
    requires s < |n.tasks| && i < TaskCount(n.tasks[s]) && i !in n.tasks[s].blockAck
    ensures var r := SendOne(n, s, i);
            var d := r.node.log[|n.log|];
            && r.node.log == n.log + [d] && (r.ok <==> d.use.OnAir?)
            && LoopDraws(n, s, i) == if r.ok then [d] + LoopDraws(r.node, s, i + 1) else [d]
  {
    hide SegPdu;
    var t, r := n.tasks[s], SendOne(n, s, i);
    var q, u := Next(n, t.ctx.src), r.node.tasks[s];
    MissingInRange(t, i);
    MissingInRange(t, i + 1);
    MissingIgnoresCtx(t, u, i + 1);
    SegDrawIgnoresSqn(t.ctx, q, t.pdu, 0, i);
    OutgoingIgnoresSqn(t.ctx, q, t.pdu, Missing(t, i + 1), Next(r.node, t.ctx.src), OwnSource(n, t.ctx.src));
    assert Missing(t, i) == [i] + Missing(t, i + 1) && ([i] + Missing(t, i + 1))[1..] == Missing(t, i + 1);
  }

  /** Draw j + 1 + k put segment k of the message of draw j on the air. */
  ghost predicate SentAt(log: seq<Draw>, j: nat, k: nat) {
    j + 1 + k < |log| && IsFrameOf(log[j + 1 + k], log[j], k)
  }

  /** Draw j numbered a message, and the draws after it put all its segments on the air. */
  ghost predicate AllSent(log: seq<Draw>, j: nat) {
    && j < |log| && log[j].use.Message?
    && 1 <= SegCount(|log[j].use.pdu|, log[j].use.ctx.ctl) <= MAX_SEGMENTS
    && forall k :: 0 <= k < SegCount(|log[j].use.pdu|, log[j].use.ctx.ctl) ==> SentAt(log, j, k)
  }

  /** Segment k when the first one goes out under number q. */
  function SegDraw(c: MsgCtx, pdu: seq<byte>, q: nat, k: nat): Draw
    requires k < SegCount(|pdu|, c.ctl)
  {
    Draw(c.src, c.iv, q + k, OnAir(c.(sqn := q + k), SegPdu(c, pdu, k)))
  }

  /** The draws for segments i and later, under consecutive numbers. */
  function SegDraws(c: MsgCtx, pdu: seq<byte>, q: nat, i: nat): (r: seq<Draw>)
    requires i <= SegCount(|pdu|, c.ctl)
    ensures |r| == SegCount(|pdu|, c.ctl) - i
    decreases SegCount(|pdu|, c.ctl) - i
  {
    if i == SegCount(|pdu|, c.ctl) then [] else [SegDraw(c, pdu, q, i)] + SegDraws(c, pdu, q, i + 1)
  }

  lemma {:induction false} SegDrawsAt(c: MsgCtx, pdu: seq<byte>, q: nat, i: nat, k: nat)
    requires i + k < SegCount(|pdu|, c.ctl)
    ensures SegDraws(c, pdu, q, i)[k] == SegDraw(c, pdu, q, i + k)
    decreases k
  {
    hide SegDraw, SegCount;
    if k > 0 { SegDrawsAt(c, pdu, q, i + 1, k - 1); }
  }

  lemma SegDrawIgnoresSqn(c: MsgCtx, x: nat, pdu: seq<byte>, q: nat, k: nat)
    requires k < SegCount(|pdu|, c.ctl)
    ensures SegPdu(c.(sqn := x), pdu, k) == SegPdu(c, pdu, k) && SegDraw(c.(sqn := x), pdu, q, k) == SegDraw(c, pdu, q, k)
  {
  }

  lemma {:induction false} SegDrawsIgnoreSqn(c: MsgCtx, x: nat, pdu: seq<byte>, q: nat, i: nat)
    requires i <= SegCount(|pdu|, c.ctl)
    ensures SegDraws(c.(sqn := x), pdu, q, i) == SegDraws(c, pdu, q, i)
    decreases SegCount(|pdu|, c.ctl) - i
  {
    if i < SegCount(|pdu|, c.ctl) {
      SegDrawIgnoresSqn(c, x, pdu, q, i);
      SegDrawsIgnoreSqn(c, x, pdu, q, i + 1);
    }
  }

  /** The task in slot s is about to send segment i for the first time, under the next number; segment 0 had number q. */
  predicate FirstRound(n: Node, s: nat, q: nat, i: nat) {
    && s < |n.tasks| && i <= TaskCount(n.tasks[s]) <= MAX_SEGMENTS && n.tasks[s].blockAck == {}
    && var c, k := n.tasks[s].ctx, TaskCount(n.tasks[s]);
       OwnSource(n, c.src) && Next(n, c.src) == q + i && q + k <= SEQ_MAX && c.seqAuth <= q && q + k <= c.seqAuth + SEQ_ZERO_RANGE
  }

  lemma OneDrawn(n: Node, s: nat, q: nat, i: nat) returns (m: Node)
    requires FirstRound(n, s, q, i) && i < TaskCount(n.tasks[s])
    ensures var t := n.tasks[s];
            && FirstRound(m, s, q, i + 1) && m.log == n.log + [SegDraw(t.ctx, t.pdu, q, i)]
            && m.tasks[s].pdu == t.pdu && m.tasks[s].ctx == t.ctx.(sqn := m.tasks[s].ctx.sqn)
            && SendFrom(n, s, i).node == SendFrom(m, s, i + 1).node
  {
    hide SegPdu;
    m := SendOne(n, s, i).node;
    SegDrawIgnoresSqn(n.tasks[s].ctx, Next(n, n.tasks[s].ctx.src), n.tasks[s].pdu, q, i);
  }

  lemma Joined(a: seq<Draw>, b: seq<Draw>, c: seq<Draw>)
    ensures (a + b) + c == a + (b + c) && a + [] == a
  {
  }

  lemma {:induction false} SegmentsDrawn(n: Node, s: nat, q: nat, i: nat)
    requires FirstRound(n, s, q, i)
    ensures SendFrom(n, s, i).node.log == n.log + SegDraws(n.tasks[s].ctx, n.tasks[s].pdu, q, i)
    decreases TaskCount(n.tasks[s]) - i
  {
    hide SegDraw, SegPdu, SegCount, OnlySends;
    var t := n.tasks[s];
    if i == TaskCount(t) {
      assert SegDraws(t.ctx, t.pdu, q, i) == [];
      Joined(n.log, [], []);
    } else {
      var m := OneDrawn(n, s, q, i);
      var d, rest := SegDraw(t.ctx, t.pdu, q, i), SegDraws(t.ctx, t.pdu, q, i + 1);
      assert SegDraws(t.ctx, t.pdu, q, i) == [d] + rest;
      SegDrawsIgnoreSqn(t.ctx, m.tasks[s].ctx.sqn, t.pdu, q, i + 1);
      hide FirstRound, SendFrom, SegDraws;
      SegmentsDrawn(m, s, q, i + 1);
      Joined(n.log, [d], rest);
    }
  }

  /** There is a number below the maximum for the message and for each of its segments. */
  ghost predicate Roomy(n: Node, c: MsgCtx, pdu: seq<byte>) {
    && CountersOk(n) && FirstNumber(n, c) + SegCount(|pdu|, c.ctl) <= SEQ_MAX
    && forall i :: 0 <= i < |n.log| ==> n.log[i].sqn < SEQ_MAX
  }

  function NumberDraw(d: MsgCtx, pdu: seq<byte>): Draw { Draw(d.src, d.iv, d.seqAuth, SeqAuthUse(d, pdu)) }

  lemma SegDrawIsFrame(d: MsgCtx, pdu: seq<byte>, q: nat, k: nat)
    requires k < SegCount(|pdu|, d.ctl) <= MAX_SEGMENTS && d.seqAuth <= q && q + SegCount(|pdu|, d.ctl) <= d.seqAuth + SEQ_ZERO_RANGE
    ensures IsFrameOf(SegDraw(d, pdu, q, k), NumberDraw(d, pdu), k)
  {
    SegDrawIgnoresSqn(d, d.seqAuth, pdu, q, k);
    hide SegPdu, SegCount;
  }

  /** Draw j numbered d's message and the draws after it sent its segments. */
  ghost predicate Burst(log: seq<Draw>, j: nat, d: MsgCtx, pdu: seq<byte>, q: nat) {
    j < |log| && log[j] == NumberDraw(d, pdu) && log[j + 1..] == SegDraws(d, pdu, q, 0)
  }

  lemma BurstAt(log: seq<Draw>, j: nat, d: MsgCtx, pdu: seq<byte>, q: nat, k: nat)
    requires Burst(log, j, d, pdu, q)
    ensures |log| == j + 1 + SegCount(|pdu|, d.ctl)
    ensures k < SegCount(|pdu|, d.ctl) ==> log[j + 1 + k] == SegDraw(d, pdu, q, k)
  {
    hide SegCount, SegDraws, SegDraw;
    if k < SegCount(|pdu|, d.ctl) {
      SegDrawsAt(d, pdu, q, 0, k);
      assert log[j + 1 + k] == log[j + 1..][k];
    }
  }

  lemma BurstIsSent(log: seq<Draw>, j: nat, d: MsgCtx, pdu: seq<byte>, q: nat)
    requires Burst(log, j, d, pdu, q) && q + SegCount(|pdu|, d.ctl) <= SEQ_MAX
    requires 1 <= SegCount(|pdu|, d.ctl) <= MAX_SEGMENTS && d.seqAuth <= q && q + SegCount(|pdu|, d.ctl) <= d.seqAuth + SEQ_ZERO_RANGE
    ensures AllSent(log, j) && forall i :: j <= i < |log| ==> log[i].sqn < SEQ_MAX
  {
    hide SegCount, SegDraws, IsFrameOf, SegPdu;
    assert log[j] == NumberDraw(d, pdu);
    hide Burst;
    BurstAt(log, j, d, pdu, q, 0);
    forall k | 0 <= k < SegCount(|pdu|, d.ctl) ensures SentAt(log, j, k) {
      BurstAt(log, j, d, pdu, q, k);
      SegDrawIsFrame(d, pdu, q, k);
    }
    forall i | j < i < |log| ensures log[i].sqn < SEQ_MAX { BurstAt(log, j, d, pdu, q, i - j - 1); }
  }

  lemma JoinedIsBurst(log: seq<Draw>, d: MsgCtx, pdu: seq<byte>, q: nat)
    ensures Burst(log + ([NumberDraw(d, pdu)] + SegDraws(d, pdu, q, 0)), |log|, d, pdu, q)
  {
  }

  /** An unhindered message's segments go out under consecutive numbers; an access message's own number is the one before
      them. */
  lemma MessageDrawn(n: Node, c: MsgCtx, pdu: seq<byte>)
    requires Unhindered(n, c, pdu) && Roomy(n, c, pdu)
    ensures n.log <= SendMessage(n, c, pdu).log
    ensures Burst(SendMessage(n, c, pdu).log, |n.log|, WithNumber(n, c).(seg := true), pdu, FirstNumber(n, c))
  {
    hide SegPdu, SendMessage, SegDraw, Burst;
    var d, q := WithNumber(n, c).(seg := true), FirstNumber(n, c);
    StartedSends(n, c, pdu);
    SegmentsDrawn(Started(n, c, pdu), n.idle[0], q, 0);
    JoinedIsBurst(n.log, d, pdu, q);
    Joined(n.log, [NumberDraw(d, pdu)], SegDraws(d, pdu, q, 0));
  }

  lemma MessageSent(n: Node, c: MsgCtx, pdu: seq<byte>)
    requires Unhindered(n, c, pdu) && Roomy(n, c, pdu)
    ensures var r := SendMessage(n, c, pdu);
            AllSent(r.log, |n.log|) && forall i :: 0 <= i < |r.log| ==> r.log[i].sqn < SEQ_MAX
  {
    MessageDrawn(n, c, pdu);
    hide SendMessage, AllSent, Burst;
    BurstIsSent(SendMessage(n, c, pdu).log, |n.log|, WithNumber(n, c).(seg := true), pdu, FirstNumber(n, c));
  }
}
