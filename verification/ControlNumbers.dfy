// A control message goes out under the number its caller gives it; the stack neither draws nor checks one. Exactly
// when that repeats a network nonce, and exactly when it repeats a message's SeqAuth.

module ControlNumbers {
  import opened Bytes
  import opened Mesh
  import opened Segments
  import opened IvIndex
  import opened TxNode
  import opened Scheduler
  import opened Messages
  import opened Freshness
  import opened Recovery
  import opened LogFree
  import opened Lineage

  // ---------- one context used twice ----------

  /** A control message short enough to be sent whole. */
  predicate SentWhole(c: MsgCtx, pdu: seq<byte>) { c.ctl && pdu != [] && IsValidAddress(c.dst) && !NeedsSegments(c, |pdu|) }

  lemma SentWholeIs(n: Node, c: MsgCtx, pdu: seq<byte>)
    requires NodeOk(n) && IvValid(n.iv) && Enabled(n, Send(c, pdu)) && SentWhole(c, pdu)
    ensures Do(n, Send(c, pdu)) == n.(log := n.log + [Draw(c.src, c.iv, c.sqn, FrameUse(c, pdu))])
  {
  }

  /** From any state, initialisation included: send two such messages with one context. Both frames go out under the same
      network nonce, whatever IV index the context has. */
  lemma OneContextTwiceRepeatsFrame(n: Node, c: MsgCtx, p: seq<byte>, q: seq<byte>)
    requires NodeOk(n) && IvValid(n.iv) && Enabled(n, Send(c, p)) && SentWhole(c, p) && SentWhole(c, q) && c.sqn < SEQ_MAX
    ensures var es := [Send(c, p), Send(c, q)]; Legal(n, es) && !FramesFresh(Exec(n, es).log)
  {
    SentWholeIs(n, c, p);
    var m := Do(n, Send(c, p));
    assert NodeOk(m) && IvValid(m.iv) && Enabled(m, Send(c, q));
    SentWholeIs(m, c, q);
    var r := Do(m, Send(c, q));
    var es := [Send(c, p), Send(c, q)];
    assert es[1..] == [Send(c, q)] && es[1..][1..] == [] && NodeOk(r) && IvValid(r.iv);
    hide Do, Enabled, SentWhole;
    NothingAfter(r);
    assert Exec(n, es) == r;
    assert SameNonce(r.log[|n.log|], r.log[|n.log| + 1]);
  }

  // ---------- a log with one entry left out ----------

  function Drop(log: seq<Draw>, i: nat): seq<Draw>
    requires i < |log|
  {
    log[..i] + log[i + 1..]
  }

  lemma DropAt(log: seq<Draw>, i: nat)
    requires i < |log|
    ensures |Drop(log, i)| == |log| - 1
    ensures forall j :: 0 <= j < |log| - 1 ==> Drop(log, i)[j] == log[if j < i then j else j + 1]
  {
  }

  /** If what is left is fresh, two entries of a kind that the missing one is not of are fresh together. */
  lemma KindsAfterDrop(log: seq<Draw>, i: nat)
    requires i < |log| && NoReuse(Drop(log, i))
    ensures !log[i].use.OnAir? ==> FramesFresh(log)
    ensures !NumbersMessage(log[i]) ==> MessagesFresh(log)
  {
    DropAt(log, i);
    forall a, b | 0 <= a < b < |log| && a != i && b != i && SameNonce(log[a], log[b]) ensures log[a].sqn == SEQ_MAX {
      var x, y := if a < i then a else a - 1, if b < i then b else b - 1;
      assert Drop(log, i)[x] == log[a] && Drop(log, i)[y] == log[b];
    }
  }

  lemma DropGrows(log: seq<Draw>, more: seq<Draw>, i: nat)
    requires i < |log|
    ensures Drop(log, i) + more == Drop(log + more, i)
  {
  }

  /** A run from a state that is fresh but for one entry of its log. */
  lemma RunFreshButOne(m: Node, i: nat, es: seq<Step>)
    requires Sched(m) && IvValid(m.iv) && i < |m.log| && Fresh(m.(log := Drop(m.log, i))) && Legal(m, es) && Guarded(m, es)
    ensures i < |Exec(m, es).log| && Exec(m, es).log[i] == m.log[i] && NoReuse(Drop(Exec(m, es).log, i))
  {
    var l := Drop(m.log, i);
    var a := m.(log := l);
    DropAt(m.log, i);
    assert NodeOk(m);
    SameListsSched(m, a);
    hide Drop, Fresh, Sched, NodeOk, IvValid, Legal, Guarded;
    RunThinned(m, es, l);
    RunFresh(a, es);
    var log := Exec(m, es).log;
    DropGrows(m.log, log[|m.log|..], i);
    assert log == m.log + log[|m.log|..];
    FreshLog(Exec(a, es));
  }

  lemma FreshLog(n: Node)
    requires Fresh(n)
    ensures NoReuse(n.log)
  {
  }

  lemma DroppedFresh(n: Node, i: nat)
    requires Fresh(n) && i < |n.log|
    ensures Fresh(n.(log := Drop(n.log, i)))
  {
    DropAt(n.log, i);
    var m := n.(log := Drop(n.log, i));
    assert forall iv :: Behind(n, iv) ==> Behind(m, iv);
  }

  // ---------- messages sent whole: network nonces ----------

  predicate HasNonce(d: Draw, src: nat, iv: nat, q: nat) { d.src == src && d.iv == iv && d.sqn == q }

  /** A frame went out under this nonce. */
  ghost predicate OnAirUnder(log: seq<Draw>, src: nat, iv: nat, q: nat) {
    exists i :: 0 <= i < |log| && log[i].use.OnAir? && HasNonce(log[i], src, iv, q)
  }

  /** Fresh but for the one entry, if any, that has the message's number already. */
  lemma SendIsFreshButOne(n: Node, c: MsgCtx, pdu: seq<byte>) returns (i: nat)
    requires Fresh(n) && Sched(n) && Enabled(n, Send(c, pdu)) && c.ctl && c.iv == TxIv(n.iv)
    requires ControlNumber(c, |pdu|) < Next(n, c.src) && ControlNumber(c, |pdu|) < SEQ_MAX && !Spare(n, c.src, c.iv, ControlNumber(c, |pdu|))
    ensures i < |n.log| && HasNonce(n.log[i], c.src, c.iv, ControlNumber(c, |pdu|))
    ensures var m := Do(n, Send(c, pdu)); i < |m.log| && m.log[i] == n.log[i] && Fresh(m.(log := Drop(m.log, i)))
  {
    var e, q := Send(c, pdu), ControlNumber(c, |pdu|);
    i :| 0 <= i < |n.log| && HasNonce(n.log[i], c.src, c.iv, q);
    var l := Drop(n.log, i);
    var a := n.(log := l);
    DropAt(n.log, i);
    DroppedFresh(n, i);
    SameListsSched(n, a);
    DroppedIsSpare(n, i, c.src, c.iv, q);
    hide Fresh, Sched, Spare;
    DoFresh(a, e);
    DoThinned(n, e, l);
    var m := Do(n, e);
    DropGrows(n.log, m.log[|n.log|..], i);
    assert m.log == n.log + m.log[|n.log|..];
  }

  lemma DroppedIsSpare(n: Node, i: nat, src: nat, iv: nat, q: nat)
    requires NoReuse(n.log) && i < |n.log| && HasNonce(n.log[i], src, iv, q) && q < Next(n, src)
    ensures Spare(n.(log := Drop(n.log, i)), src, iv, q)
  {
    DropAt(n.log, i);
    var l := Drop(n.log, i);
    forall j | 0 <= j < |l| && l[j].src == src && l[j].iv == iv && l[j].sqn == q ensures q == SEQ_MAX {
      var x := if j < i then j else j + 1;
      assert SameNonce(n.log[i], n.log[x]) && SameNonce(n.log[x], n.log[i]);
    }
  }

  /** From a state that any guarded run leads to, a control message is sent whole under the transmit IV. Network nonces
      stay fresh in every guarded continuation if and only if its number has been drawn and no frame went out under it,
      or it is the saturated number. */
  lemma FrameNumberIsSafeIff(n: Node, c: MsgCtx, pdu: seq<byte>)
    requires Ok(n) && Fresh(n) && Enabled(n, Send(c, pdu)) && SentWhole(c, pdu) && c.iv == TxIv(n.iv)
    ensures var m := Do(n, Send(c, pdu));
            && IvValid(m.iv)
            && ((forall es | Legal(m, es) && Guarded(m, es) :: FramesFresh(Exec(m, es).log)) <==>
                c.sqn == SEQ_MAX || (c.sqn < Next(n, c.src) && !OnAirUnder(n.log, c.src, c.iv, c.sqn)))
  {
    var e := Send(c, pdu);
    var m := Do(n, e);
    DoGood(n, e);
    DoSched(n, e);
    SentWholeIs(n, c, pdu);
    assert c.sqn <= SEQ_MAX;
    hide Good, Sched, Do, Fresh, Enabled, SentWhole;
    if c.sqn == SEQ_MAX || (c.sqn < Next(n, c.src) && !OnAirUnder(n.log, c.src, c.iv, c.sqn)) {
      forall es | Legal(m, es) && Guarded(m, es) ensures FramesFresh(Exec(m, es).log) { FrameSafe(n, c, pdu, es); }
    } else {
      var es := FrameRepeats(m, |n.log|);
    }
  }

  lemma FrameSafe(n: Node, c: MsgCtx, pdu: seq<byte>, es: seq<Step>)
    requires Ok(n) && Fresh(n) && Enabled(n, Send(c, pdu)) && SentWhole(c, pdu) && c.iv == TxIv(n.iv)
    requires c.sqn == SEQ_MAX || (c.sqn < Next(n, c.src) && !OnAirUnder(n.log, c.src, c.iv, c.sqn))
    requires var m := Do(n, Send(c, pdu)); IvValid(m.iv) && Legal(m, es) && Guarded(m, es)
    ensures FramesFresh(Exec(Do(n, Send(c, pdu)), es).log)
  {
    var e := Send(c, pdu);
    var m := Do(n, e);
    DoSched(n, e);
    assert ControlNumber(c, |pdu|) == c.sqn;
    hide Do, Fresh, Sched, Good, Enabled, SentWhole;
    if Spare(n, c.src, c.iv, c.sqn) {
      DoFresh(n, e);
      RunFresh(m, es);
      FreshLog(Exec(m, es));
    } else {
      var i := SendIsFreshButOne(n, c, pdu);
      RunFreshButOne(m, i, es);
      KindsAfterDrop(Exec(m, es).log, i);
    }
  }

  /** Frame d, the last in the log, is already repeated, or will be. */
  lemma FrameRepeats(m: Node, i: nat) returns (es: seq<Step>)
    requires Ok(m) && i < |m.log| && m.log[i].use.OnAir? && OwnSource(m, m.log[i].src) && m.log[i].iv == TxIv(m.iv)
    requires m.log[i].sqn < SEQ_MAX
    requires Next(m, m.log[i].src) <= m.log[i].sqn || OnAirUnder(m.log[..i], m.log[i].src, m.log[i].iv, m.log[i].sqn)
    ensures Legal(m, es) && Guarded(m, es) && !FramesFresh(Exec(m, es).log)
  {
    OkValid(m);
    if Next(m, m.log[i].src) <= m.log[i].sqn {
      var up := NumberComesNext(m, i);
      var ack := AckRepeats(Exec(m, up), i);
      hide Ok, ComesNext, FramesFresh;
      QuietAppend(m, up, ack);
      es := up + ack;
      QuietGuarded(m, es);
    } else {
      es := [];
      var j :| 0 <= j < i && m.log[j].use.OnAir? && HasNonce(m.log[j], m.log[i].src, m.log[i].iv, m.log[i].sqn);
      assert SameNonce(m.log[j], m.log[i]);
    }
  }

  lemma NumberComesNext(m: Node, i: nat) returns (es: seq<Step>)
    requires Ok(m) && i < |m.log| && OwnSource(m, m.log[i].src) && m.log[i].iv == TxIv(m.iv)
    requires Next(m, m.log[i].src) <= m.log[i].sqn < SEQ_MAX
    ensures Quiet(es) && Legal(m, es) && Ok(Exec(m, es)) && ComesNext(Exec(m, es), i) && Exec(m, es).log[i] == m.log[i]
  {
    es := RaiseCounter(m, m.log[i].src, m.log[i].sqn - Next(m, m.log[i].src));
    RunGood(m, es);
  }

  // ---------- segmented messages: SeqAuth ----------

  /** A control message that lower transport takes for segmentation. */
  predicate SentSplit(n: Node, c: MsgCtx, pdu: seq<byte>)
    requires NodeOk(n)
  {
    c.ctl && Splits(c, pdu) && Storable(n, c.(seg := true), |pdu|)
  }

  /** A message was numbered with this nonce. */
  ghost predicate NumberedUnder(log: seq<Draw>, src: nat, iv: nat, q: nat) {
    exists i :: 0 <= i < |log| && NumbersMessage(log[i]) && HasNonce(log[i], src, iv, q)
  }

  /** A task that ends now takes the node out of the In Progress state. */
  predicate EndsUpdate(n: Node) { n.iv.pending && n.iv.state.InProgress? }

  /** The SeqAuth has been drawn. A number not drawn yet does no harm either if the message is started at once and either
      sends its first segment under that very number or is dropped, which ends an IV update. */
  predicate Drawable(n: Node, c: MsgCtx)
    requires NodeOk(n)
  {
    c.seqAuth < Next(n, c.src) || (!DstActive(n, c.dst) && (c.seqAuth == Next(n, c.src) || EndsUpdate(n)))
  }

  function SeqAuthDraw(w: MsgCtx, pdu: seq<byte>): Draw { Draw(w.src, w.iv, w.seqAuth, SeqAuthUse(w, pdu)) }

  lemma SameTail(m: Node, k: nat, r: Node, l: seq<Draw>)
    requires k <= |m.log| && l <= r.log && Detached(m, k) == Detached(r, |l|)
    ensures r == m.(log := l + m.log[k..])
  {
    assert r.log == l + r.log[|l|..];
    assert Detached(m, k).log == m.log[k..] && Detached(r, |l|).log == r.log[|l|..];
  }

  lemma SendIsStore(n: Node, c: MsgCtx, pdu: seq<byte>)
    requires NodeOk(n) && IvValid(n.iv) && Enabled(n, Send(c, pdu)) && SentSplit(n, c, pdu)
    ensures var w := c.(seg := true);
            var a := n.(log := n.log + [SeqAuthDraw(w, pdu)]);
            NodeOk(a) && Do(n, Send(c, pdu)) == StoreMessage(a, w, pdu)
  {
    hide StoreMessage;
  }

  /** What sending it puts into the log, and where it leaves the task. */
  lemma SentSplitIs(n: Node, c: MsgCtx, pdu: seq<byte>)
    requires NodeOk(n) && IvValid(n.iv) && Enabled(n, Send(c, pdu)) && SentSplit(n, c, pdu)
    ensures var w, m, m0 := c.(seg := true), Do(n, Send(c, pdu)), StoreMessage(n, c.(seg := true), pdu);
            && n.log <= m0.log && m == m0.(log := n.log + [SeqAuthDraw(w, pdu)] + m0.log[|n.log|..])
  {
    var w := c.(seg := true);
    var k := |n.log|;
    var l := n.log + [SeqAuthDraw(w, pdu)];
    var a := n.(log := l);
    SendIsStore(n, c, pdu);
    assert Detached(n, k) == Detached(a, |l|);
    hide *;
    StoreDetached(n, w, pdu, k);
    StoreDetached(a, w, pdu, |l|);
    SameTail(StoreMessage(n, w, pdu), k, StoreMessage(a, w, pdu), l);
  }

  /** The pool once the message has its slot, before it is started or put behind another. */
  function Filled(n: Node, w: MsgCtx, pdu: seq<byte>): Node
    requires NodeOk(n) && n.idle != []
  {
    n.(idle := n.idle[1..], tasks := n.tasks[n.idle[0] := TxTask(w, pdu, Bits(SegCount(|pdu|, w.ctl)), {}, 0)])
  }

  lemma FilledReady(n: Node, w: MsgCtx, pdu: seq<byte>)
    requires Sched(n) && n.idle != [] && Storable(n, w, |pdu|)
    ensures var f, s := Filled(n, w, pdu), n.idle[0];
            && NodeOk(f) && s < |f.tasks| && (DstActive(f, w.dst) <==> DstActive(n, w.dst))
            && (!DstActive(n, w.dst) ==> Ready(f, s) && WaitsOr(f, -1))
            && StoreMessage(n, w, pdu) == if DstActive(n, w.dst) then f.(pending := f.pending + [s]) else StartTask(f, s)
  {
    var f, s := Filled(n, w, pdu), n.idle[0];
    IdleHeadLeaves(n, f);
    IdleHeadFree(n);
    hide StartTask;
    assert DstActive(f, w.dst) ==> DstActive(n, w.dst);
  }

  /** The first number a started task draws is the counter's. */
  lemma StartDrawsNext(f: Node, s: nat)
    requires NodeOk(f) && s < |f.tasks| && f.tasks[s].blockAck == {} && 1 <= TaskCount(f.tasks[s])
    ensures var r, c := StartTask(f, s), f.tasks[s].ctx;
            |r.log| > |f.log| && HasNonce(r.log[|f.log|], c.src, c.iv, Next(f, c.src)) && (c.seg ==> !NumbersMessage(r.log[|f.log|]))
  {
    var a := Activate(f, s);
    StartUnfolds(f, s);
    OneDraws(a, s);
    hide *;
    var one, sent := SendOne(a, s, 0), SendFrom(a, s, 0);
    if one.ok { SendFromDetached(one.node, s, 1, 0); }
    FinishDetached(sent.node, s, 0);
    FirstStays(f.log, one.node.log, StartTask(f, s).log);
  }

  lemma StartUnfolds(f: Node, s: nat)
    requires NodeOk(f) && s < |f.tasks|
    ensures var a := Activate(f, s);
            var sent := SendFrom(a, s, 0);
            && NodeOk(sent.node) && s < |sent.node.tasks| && s < |a.tasks| && a.tasks == f.tasks && a.log == f.log
            && Next(a, f.tasks[s].ctx.src) == Next(f, f.tasks[s].ctx.src) && StartTask(f, s) == if sent.ok then sent.node else Finish(sent.node, s)
  {
    hide SendFrom, Finish;
  }

  lemma FirstStays(l: seq<Draw>, m: seq<Draw>, r: seq<Draw>)
    requires l <= m <= r && |m| > |l|
    ensures r[|l|] == m[|l|] && |r| > |l|
  {
  }

  lemma OneDraws(a: Node, s: nat)
    requires s < |a.tasks| && a.tasks[s].blockAck == {} && 1 <= TaskCount(a.tasks[s])
    ensures var r, c := SendOne(a, s, 0).node, a.tasks[s].ctx;
            && a.log <= r.log && |r.log| == |a.log| + 1 && s < |r.tasks| && HasNonce(r.log[|a.log|], c.src, c.iv, Next(a, c.src))
            && (c.seg ==> !NumbersMessage(r.log[|a.log|])) && SendFrom(a, s, 0) == if SendOne(a, s, 0).ok then SendFrom(r, s, 1) else SendOne(a, s, 0)
  {
    hide SegPdu, OnlySends;
  }

  /** A task whose first segment is outside the window draws one number, sends nothing and is dropped. */
  lemma DroppedAtOnce(f: Node, s: nat)
    requires Ready(f, s) && WaitsOr(f, -1) && f.tasks[s].blockAck == {} && 1 <= TaskCount(f.tasks[s])
    requires !InWindow(Next(f, f.tasks[s].ctx.src), f.tasks[s].ctx.seqAuth)
    ensures var r, c := StartTask(f, s), f.tasks[s].ctx;
            && r.log == f.log + [Draw(c.src, c.iv, Next(f, c.src), Refused)]
            && r.counters == Counted(f, c.src) && r.iv == TaskFinished(f.iv) && r.addr == f.addr
  {
    var a := Activate(f, s);
    var r := SendOne(a, s, 0).node;
    ActivateSched(f, s);
    OnlySendsSched(a, r, s);
    assert r.active[|f.active|] == s;
    ReleaseSched(r, s);
    NobodyRunnable(f, r, s);
    hide StartTask, SendOne;
    var c := f.tasks[s].ctx;
    StartThenFinish(f, s);
  }

  lemma StartThenFinish(f: Node, s: nat)
    requires NodeOk(f) && s < |f.tasks| && f.tasks[s].blockAck == {} && 1 <= TaskCount(f.tasks[s])
    requires !InWindow(Next(f, f.tasks[s].ctx.src), f.tasks[s].ctx.seqAuth)
    ensures var c, r := f.tasks[s].ctx, SendOne(Activate(f, s), s, 0).node;
            && StartTask(f, s) == Finish(r, s)
            && r.log == f.log + [Draw(c.src, c.iv, Next(f, c.src), Refused)] && r.counters == Counted(f, c.src) && r.iv == f.iv && r.addr == f.addr
  {
    hide Finish, SegPdu;
  }

  lemma NobodyRunnable(f: Node, r: Node, s: nat)
    requires Ready(f, s) && WaitsOr(f, -1) && NodeOk(r) && OnlySends(Activate(f, s), r, s) && Sched(r) && s in r.active
    ensures Finish(r, s) == Release(r, s)
  {
    var n1 := Release(r, s);
    ReleaseSched(r, s);
    forall j | 0 <= j < |n1.pending| ensures DstActive(n1, Dst(n1, n1.pending[j])) {
      assert n1.pending[j] == f.pending[j] && DstActive(f, Dst(f, f.pending[j]));
    }
  }

  // ---------- fresh continuations ----------

  /** Two logs whose entries have the same nonces one by one. */
  ghost predicate SameNonces(a: seq<Draw>, b: seq<Draw>) { |a| == |b| && forall i :: 0 <= i < |a| ==> SameNonce(a[i], b[i]) }

  lemma SameNoncesFresh(n: Node, l: seq<Draw>)
    requires Fresh(n) && SameNonces(n.log, l)
    ensures Fresh(n.(log := l))
  {
    var m := n.(log := l);
    forall i, j | 0 <= i < j < |l| && SameNonce(l[i], l[j]) ensures l[i].sqn == SEQ_MAX {
      assert SameNonce(n.log[i], l[i]) && SameNonce(n.log[j], l[j]);
    }
    forall iv | Behind(n, iv) ensures Behind(m, iv) {
      forall i | 0 <= i < |l| ensures n.log[i].src == l[i].src && n.log[i].iv == l[i].iv && n.log[i].sqn == l[i].sqn {
        assert SameNonce(n.log[i], l[i]);
      }
    }
    assert forall i :: 0 <= i < |l| ==> SameNonce(n.log[i], l[i]);
  }

  lemma NoncesWithoutFirst(log: seq<Draw>, x: Draw, more: seq<Draw>)
    requires more != [] && SameNonce(more[0], x)
    ensures |log| + 1 < |log + [x] + more| && (log + [x] + more)[|log| + 1] == more[0]
    ensures SameNonces(log + more, Drop(log + [x] + more, |log| + 1))
  {
    var l := Drop(log + [x] + more, |log| + 1);
    assert l == log + [x] + more[1..];
    forall i | 0 <= i < |l| ensures SameNonce((log + more)[i], l[i]) {
      if i > |log| { assert l[i] == more[i - |log|]; }
    }
  }

  /** What a message started at once draws first. */
  lemma FirstSegment(n: Node, w: MsgCtx, pdu: seq<byte>)
    requires Ok(n) && w.ctl && w.seg && pdu != [] && Storable(n, w, |pdu|) && !DstActive(n, w.dst)
    ensures var r := StoreMessage(n, w, pdu);
            |r.log| > |n.log| && HasNonce(r.log[|n.log|], w.src, w.iv, Next(n, w.src)) && !NumbersMessage(r.log[|n.log|])
  {
    FilledReady(n, w, pdu);
    StartDrawsNext(Filled(n, w, pdu), n.idle[0]);
    hide StoreMessage, StartTask, Good, Sched;
  }

  lemma NextIsSeqAuth(n: Node, w: MsgCtx, pdu: seq<byte>, d: Draw)
    requires w.seqAuth == Next(n, w.src) && HasNonce(d, w.src, w.iv, Next(n, w.src))
    ensures SameNonce(d, SeqAuthDraw(w, pdu))
  {
  }

  /** With the SeqAuth equal to the next number, the first segment has the very nonce of the message; leave that
      segment out and the state is fresh. */
  lemma OwnNumberNext(n: Node, c: MsgCtx, pdu: seq<byte>)
    requires Ok(n) && Fresh(n) && Enabled(n, Send(c, pdu)) && SentSplit(n, c, pdu) && c.iv == TxIv(n.iv)
    requires c.seqAuth == Next(n, c.src) && !DstActive(n, c.dst)
    ensures var m, k := Do(n, Send(c, pdu)), |n.log| + 1;
            k < |m.log| && !NumbersMessage(m.log[k]) && Fresh(m.(log := Drop(m.log, k)))
  {
    var w, k := c.(seg := true), |n.log|;
    var m, m0 := Do(n, Send(c, pdu)), StoreMessage(n, w, pdu);
    SentSplitIs(n, c, pdu);
    FirstSegment(n, w, pdu);
    StoreMessageFresh(n, w, pdu);
    hide *;
    var x, more := SeqAuthDraw(w, pdu), m0.log[k..];
    assert SameNonce(more[0], x) by { NextIsSeqAuth(n, w, pdu, more[0]); }
    NoncesWithoutFirst(n.log, x, more);
    assert n.log + more == m0.log;
    SameNoncesFresh(m0, Drop(m.log, k + 1));
    assert m.(log := Drop(m.log, k + 1)) == m0.(log := Drop(m.log, k + 1));
  }

  /** Behind another message, it only takes its slot. */
  lemma AfterWaitingSend(n: Node, c: MsgCtx, pdu: seq<byte>)
    requires Ok(n) && Enabled(n, Send(c, pdu)) && SentSplit(n, c, pdu) && DstActive(n, c.dst)
    ensures var m := Do(n, Send(c, pdu)); m.addr == n.addr && m.counters == n.counters && m.iv == n.iv
  {
    SentSplitIs(n, c, pdu);
    FilledReady(n, c.(seg := true), pdu);
    hide Do, StartTask, StoreMessage, Good, Sched, Storable;
  }

  /** With a SeqAuth ahead of the counter it is dropped at once. */
  lemma AfterEarlySend(n: Node, c: MsgCtx, pdu: seq<byte>)
    requires Ok(n) && Enabled(n, Send(c, pdu)) && SentSplit(n, c, pdu) && c.seqAuth > Next(n, c.src) && !DstActive(n, c.dst)
    ensures var m := Do(n, Send(c, pdu));
            && m.addr == n.addr && m.counters == Counted(n, c.src) && m.iv == TaskFinished(n.iv)
            && m.log == n.log + [SeqAuthDraw(c.(seg := true), pdu), Draw(c.src, c.iv, Next(n, c.src), Refused)]
  {
    var w := c.(seg := true);
    SentSplitIs(n, c, pdu);
    StoreDropped(n, w, pdu);
    hide *;
    var x, y := SeqAuthDraw(w, pdu), Draw(c.src, c.iv, Next(n, c.src), Refused);
    assert (n.log + [y])[|n.log|..] == [y] && n.log + [x] + [y] == n.log + [x, y];
  }

  lemma FilledIs(n: Node, w: MsgCtx, pdu: seq<byte>)
    requires NodeOk(n) && n.idle != [] && pdu != []
    ensures var f, s := Filled(n, w, pdu), n.idle[0];
            && s < |f.tasks| && f.tasks[s].ctx == w && f.tasks[s].blockAck == {} && 1 <= TaskCount(f.tasks[s])
            && f.log == n.log && f.addr == n.addr && f.iv == n.iv && Next(f, w.src) == Next(n, w.src) && Counted(f, w.src) == Counted(n, w.src)
  {
  }

  lemma StoreDropped(n: Node, w: MsgCtx, pdu: seq<byte>)
    requires Ok(n) && pdu != [] && Storable(n, w, |pdu|) && w.seqAuth > Next(n, w.src) && !DstActive(n, w.dst)
    ensures var m := StoreMessage(n, w, pdu);
            && m.addr == n.addr && m.counters == Counted(n, w.src) && m.iv == TaskFinished(n.iv)
            && m.log == n.log + [Draw(w.src, w.iv, Next(n, w.src), Refused)]
  {
    FilledReady(n, w, pdu);
    FilledIs(n, w, pdu);
    assert n.idle != [] && !InWindow(Next(n, w.src), w.seqAuth);
    hide *;
    DroppedAtOnce(Filled(n, w, pdu), n.idle[0]);
  }

  // ---------- a dropped message ----------

  lemma DetachedIs(m: Node, k: nat)
    requires k <= |m.log|
    ensures Detached(m, k) == m.(log := m.log[k..])
  {
  }

  lemma NewLineage(m: Node)
    requires Ok(m)
    ensures var z := Detached(m, |m.log|); NodeOk(z) && IvValid(z.iv) && Sched(z) && Descends(z, z)
  {
    var z := Detached(m, |m.log|);
    assert z.log == [];
    StoredAreSegments(m, z);
    SameListsSched(m, z);
    LineageBegins(z);
  }

  /** New messages come under the transmit IV or a later one. */
  lemma NewMessagesLater(m: Node, es: seq<Step>)
    requires Ok(m) && Legal(m, es) && Guarded(m, es)
    ensures var log := Exec(m, es).log;
            m.log <= log && forall j :: |m.log| <= j < |log| && NumbersMessage(log[j]) ==> log[j].iv >= TxIv(m.iv)
  {
    var k := |m.log|;
    var z := Detached(m, k);
    NewLineage(m);
    OkValid(m);
    hide *;
    ExecDetached(m, es, k);
    RunDescends(z, z, es);
    DetachedIs(m, k);
    DetachedIs(Exec(m, es), k);
    LegitTail(z, Exec(m, es).log, k);
  }

  lemma LegitTail(z: Node, log: seq<Draw>, k: nat)
    requires NodeOk(z) && k <= |log| && LogLegit(z, log[k..])
    ensures forall j :: k <= j < |log| && NumbersMessage(log[j]) ==> log[j].iv >= TxIv(z.iv)
  {
    forall j | k <= j < |log| && NumbersMessage(log[j]) ensures log[j].iv >= TxIv(z.iv) {
      assert log[k..][j - k] == log[j] && FrameLegit(z, log[k..][j - k]);
    }
  }

  lemma DroppedSafe(n: Node, c: MsgCtx, pdu: seq<byte>, es: seq<Step>)
    requires Ok(n) && Fresh(n) && Enabled(n, Send(c, pdu)) && SentSplit(n, c, pdu) && c.iv == TxIv(n.iv)
    requires c.seqAuth > Next(n, c.src) && !DstActive(n, c.dst) && EndsUpdate(n) && !NumberedUnder(n.log, c.src, c.iv, c.seqAuth)
    requires var m := Do(n, Send(c, pdu)); Ok(m) && Legal(m, es) && Guarded(m, es)
    ensures MessagesFresh(Exec(Do(n, Send(c, pdu)), es).log)
  {
    var e, w, k := Send(c, pdu), c.(seg := true), |n.log|;
    var m, m0 := Do(n, e), StoreMessage(n, w, pdu);
    SentSplitIs(n, c, pdu);
    AfterEarlySend(n, c, pdu);
    StoreMessageFresh(n, w, pdu);
    assert TxIv(m.iv) > c.iv;
    NewMessagesLater(m, es);
    assert Drop(m.log, k) == m0.log;
    assert m.(log := Drop(m.log, k)) == m0;
    hide Do, StoreMessage, Good, Fresh, Sched, Storable, Enabled, Drop, SentSplit;
    RunFreshButOne(m, k, es);
    LateNumberFresh(n.log, SeqAuthDraw(w, pdu), Draw(c.src, c.iv, Next(n, c.src), Refused), Exec(m, es).log);
  }

  lemma LateNumberFresh(before: seq<Draw>, x: Draw, y: Draw, log: seq<Draw>)
    requires before + [x, y] <= log && NoReuse(Drop(log, |before|)) && y.use.Refused? && !NumberedUnder(before, x.src, x.iv, x.sqn)
    requires forall j :: |before| + 2 <= j < |log| && NumbersMessage(log[j]) ==> log[j].iv > x.iv
    ensures MessagesFresh(log)
  {
    var k := |before|;
    DropAt(log, k);
    assert log[k] == x && log[k + 1] == y;
    assert forall i :: 0 <= i < k ==> log[i] == before[i];
    forall a, b | 0 <= a < b < |log| && NumbersMessage(log[a]) && NumbersMessage(log[b]) && SameNonce(log[a], log[b])
      ensures log[a].sqn >= SEQ_MAX
    {
      if a != k && b != k {
        var i, j := if a < k then a else a - 1, if b < k then b else b - 1;
        assert Drop(log, k)[i] == log[a] && Drop(log, k)[j] == log[b];
      }
    }
  }

  // ---------- the exact condition ----------

  /** From a state that any guarded run leads to, a control message is taken for segmentation under the transmit IV. The
      nonces of messages stay fresh in every guarded continuation, so that no two messages share a SeqAuth, if and only if
      no message was numbered with its SeqAuth and that has been drawn or does no harm, or it is the saturated number. */
  lemma SeqAuthIsSafeIff(n: Node, c: MsgCtx, pdu: seq<byte>)
    requires Ok(n) && Fresh(n) && Enabled(n, Send(c, pdu)) && SentSplit(n, c, pdu) && c.iv == TxIv(n.iv)
    ensures var m := Do(n, Send(c, pdu));
            && IvValid(m.iv)
            && ((forall es | Legal(m, es) && Guarded(m, es) :: MessagesFresh(Exec(m, es).log)) <==>
                c.seqAuth == SEQ_MAX || (!NumberedUnder(n.log, c.src, c.iv, c.seqAuth) && Drawable(n, c)))
  {
    var e := Send(c, pdu);
    var m := Do(n, e);
    DoGood(n, e);
    DoSched(n, e);
    hide Good, Sched, Do, Fresh, Drawable, NumberedUnder;
    if c.seqAuth == SEQ_MAX || (!NumberedUnder(n.log, c.src, c.iv, c.seqAuth) && Drawable(n, c)) {
      hide Enabled, SentSplit;
      forall es | Legal(m, es) && Guarded(m, es) ensures MessagesFresh(Exec(m, es).log) { MessageSafe(n, c, pdu, es); }
    } else {
      assert c.seqAuth < SEQ_MAX;
      var es := SeqAuthRepeats(n, c, pdu);
    }
  }

  lemma MessageSafe(n: Node, c: MsgCtx, pdu: seq<byte>, es: seq<Step>)
    requires Ok(n) && Fresh(n) && Enabled(n, Send(c, pdu)) && SentSplit(n, c, pdu) && c.iv == TxIv(n.iv)
    requires c.seqAuth == SEQ_MAX || (!NumberedUnder(n.log, c.src, c.iv, c.seqAuth) && Drawable(n, c))
    requires var m := Do(n, Send(c, pdu)); Ok(m) && Legal(m, es) && Guarded(m, es)
    ensures MessagesFresh(Exec(Do(n, Send(c, pdu)), es).log)
  {
    var e := Send(c, pdu);
    var m := Do(n, e);
    assert ControlNumber(c, |pdu|) == c.seqAuth <= SEQ_MAX;
    hide Do, Fresh, Sched, Good, Enabled, SentSplit, DstActive, EndsUpdate, MessagesFresh;
    if Spare(n, c.src, c.iv, c.seqAuth) {
      DoFresh(n, e);
      RunFresh(m, es);
      FreshKinds(Exec(m, es));
    } else if c.seqAuth < Next(n, c.src) {
      var i := SendIsFreshButOne(n, c, pdu);
      RunFreshButOne(m, i, es);
      KindsAfterDrop(Exec(m, es).log, i);
    } else if c.seqAuth == Next(n, c.src) && !DstActive(n, c.dst) {
      OwnNumberNext(n, c, pdu);
      RunFreshButOne(m, |n.log| + 1, es);
      KindsAfterDrop(Exec(m, es).log, |n.log| + 1);
    } else {
      DroppedSafe(n, c, pdu, es);
    }
  }

  lemma FreshKinds(n: Node)
    requires Fresh(n)
    ensures FramesFresh(n.log) && MessagesFresh(n.log)
  {
  }

  lemma SeqAuthRepeats(n: Node, c: MsgCtx, pdu: seq<byte>) returns (es: seq<Step>)
    requires Ok(n) && Enabled(n, Send(c, pdu)) && SentSplit(n, c, pdu) && c.iv == TxIv(n.iv) && c.seqAuth < SEQ_MAX
    requires Ok(Do(n, Send(c, pdu)))
    requires NumberedUnder(n.log, c.src, c.iv, c.seqAuth) || !Drawable(n, c)
    ensures var m := Do(n, Send(c, pdu)); Legal(m, es) && Guarded(m, es) && !MessagesFresh(Exec(m, es).log)
  {
    var m, k := Do(n, Send(c, pdu)), |n.log|;
    OkValid(m);
    SentSplitIs(n, c, pdu);
    if NumberedUnder(n.log, c.src, c.iv, c.seqAuth) {
      es := [];
      NumberedTwice(n.log, c.src, c.iv, c.seqAuth, m.log);
    } else {
      NotDrawable(n, c, pdu);
      hide *;
      var up := NumberComesNext(m, k);
      var probe := MessageRepeats(Exec(m, up), k);
      QuietGuarded(m, up);
      ExecAppend(m, up, probe);
      es := up + probe;
    }
  }

  lemma NumberedTwice(log: seq<Draw>, src: nat, iv: nat, q: nat, more: seq<Draw>)
    requires NumberedUnder(log, src, iv, q) && q < SEQ_MAX && log <= more && |more| > |log|
    requires NumbersMessage(more[|log|]) && HasNonce(more[|log|], src, iv, q)
    ensures !MessagesFresh(more)
  {
    var i :| 0 <= i < |log| && NumbersMessage(log[i]) && HasNonce(log[i], src, iv, q);
    assert more[i] == log[i] && SameNonce(more[i], more[|log|]);
  }

  lemma NotDrawable(n: Node, c: MsgCtx, pdu: seq<byte>)
    requires Ok(n) && Enabled(n, Send(c, pdu)) && SentSplit(n, c, pdu) && c.iv == TxIv(n.iv) && c.seqAuth < SEQ_MAX
    requires !Drawable(n, c) && Ok(Do(n, Send(c, pdu)))
    ensures var m, k := Do(n, Send(c, pdu)), |n.log|;
            && k < |m.log| && NumbersMessage(m.log[k]) && HasNonce(m.log[k], c.src, TxIv(m.iv), c.seqAuth) && c.src < 0x1_0000
            && OwnSource(m, c.src) && Next(m, c.src) <= c.seqAuth
  {
    SentSplitIs(n, c, pdu);
    assert SentSplit(n, c, pdu) && c.ctl;
    StillAhead(n, c);
    assert NodeOk(n) && Enabled(n, Send(c, pdu)) && OwnSource(n, c.src);
    hide *;
    if DstActive(n, c.dst) { AfterWaitingSend(n, c, pdu); } else { AfterEarlySend(n, c, pdu); }
    SeqAuthIsUsed(n, Do(n, Send(c, pdu)), c, pdu);
  }

  lemma StillAhead(n: Node, c: MsgCtx)
    requires NodeOk(n) && IvValid(n.iv) && !Drawable(n, c) && c.seqAuth < SEQ_MAX
    ensures Next(n, c.src) <= c.seqAuth
    ensures !DstActive(n, c.dst) ==> Next(n, c.src) < c.seqAuth && TxIv(TaskFinished(n.iv)) == TxIv(n.iv)
  {
  }

  lemma SeqAuthIsUsed(n: Node, m: Node, c: MsgCtx, pdu: seq<byte>)
    requires OwnSource(n, c.src) && IvValid(n.iv) && m.addr == n.addr && c.iv == TxIv(n.iv) && c.seqAuth < SEQ_MAX && c.src < 0x1_0000
    requires (m.counters == n.counters && m.iv == n.iv && Next(n, c.src) <= c.seqAuth)
             || (m.counters == Counted(n, c.src) && TxIv(m.iv) == TxIv(n.iv) && Next(n, c.src) < c.seqAuth)
    requires |m.log| > |n.log| && m.log[|n.log|] == SeqAuthDraw(c.(seg := true), pdu)
    ensures var k := |n.log|;
            && NumbersMessage(m.log[k]) && HasNonce(m.log[k], c.src, TxIv(m.iv), c.seqAuth) && OwnSource(m, c.src) && Next(m, c.src) <= c.seqAuth
  {
  }
}
