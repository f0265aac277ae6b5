// Which numbers are repeated on the air. Freshness is about every number in use; the network layer's nonces are
// those of the frames actually sent, the upper layers' those of the messages numbered. This module says what an
// unguarded IV recovery does to the former.

module OnAirReuse {
  import opened Bytes
  import opened Mesh
  import opened Segments
  import opened IvIndex
  import opened TxNode
  import opened Scheduler
  import opened Messages
  import opened Freshness
  import opened Recovery
  import opened LogFree
  import opened Lineage

  /** Over every guarded run network nonces and application nonces are fresh, each kind for itself. */
  lemma BothKindsFresh(n: Node, es: seq<Step>)
    requires Initial(n) && Legal(n, es) && Guarded(n, es)
    ensures FramesFresh(Exec(n, es).log) && MessagesFresh(Exec(n, es).log)
  {
    NonceFreshness(n, es);
  }

  // ---------- no frame of a stored message in reach of the old numbers ----------

  /** A frame already sent carries a number that the stored message t, sent again after the counters have been
      cleared, comes to inside its window. */
  ghost predicate Endangered(log: seq<Draw>, t: TxTask) {
    exists i :: 0 <= i < |log| && InReach(log[i], t)
  }

  predicate InReach(d: Draw, t: TxTask) {
    d.use.OnAir? && d.src == t.ctx.src && d.iv == t.ctx.iv && d.sqn < SEQ_MAX && InWindow(d.sqn, t.ctx.seqAuth)
  }

  /** An IV recovery that clears the counters whatever is stored. */
  ghost predicate ClearingRecovery(n: Node, e: Step) {
    Ok(n) && Fresh(n) && Enabled(n, e) && e.Beacon? && Update(n.iv, e.index, e.state, Busy(n)).clear
  }

  ghost predicate NoneEndangered(n: Node)
    requires NodeOk(n)
  {
    forall t :: StoredMaySend(n, t) ==> !Endangered(n.log, t)
  }

  lemma DetachedFresh(n: Node, e: Step)
    requires ClearingRecovery(n, e)
    ensures var m := Do(n, e);
            && Good(m) && Sched(m) && m.log == n.log && TxIv(m.iv) > TxIv(n.iv)
            && Fresh(Detached(m, |n.log|)) && Sched(Detached(m, |n.log|)) && Detached(m, |n.log|).log == []
  {
    DoGood(n, e);
    DoSched(n, e);
    var m := Do(n, e);
    var d := Detached(m, |n.log|);
    assert d.log == [] && m == Cleared(n).(iv := m.iv);
    assert forall t :: Exhausted(d, t) == Exhausted(n, t);
    SameListsSched(m, d);
  }

  /** If no frame already sent is in reach of a stored message, the air stays fresh in every guarded continuation of
      the recovery, even where it repeats numbers in use. */
  lemma RecoverySafeOnAir(n: Node, e: Step, es: seq<Step>)
    requires ClearingRecovery(n, e) && NoneEndangered(n)
    requires IvValid(Do(n, e).iv) && Legal(Do(n, e), es) && Guarded(Do(n, e), es)
    ensures FramesFresh(Exec(Do(n, e), es).log)
  {
    DetachedFresh(n, e);
    var m, k := Do(n, e), |n.log|;
    var d := Detached(m, k);
    RunGood(m, es);
    ExecDetached(m, es, k);
    RunFresh(d, es);
    StoredAreSegments(m, d);
    LineageBegins(d);
    RunDescends(d, d, es);
    SameStored(n, d);
    hide Do, Good, Sched, Legal, Guarded, StoredMaySend, Enabled;
    Joins(n, d, Exec(m, es).log);
  }

  lemma SameStored(n: Node, d: Node)
    requires NodeOk(n) && NodeOk(d) && d.tasks == n.tasks && d.active == n.active && d.pending == n.pending && d.retryLimit == n.retryLimit
    ensures forall t :: StoredMaySend(d, t) ==> StoredMaySend(n, t)
  {
  }

  /** Old frames, new frames, and none in common. */
  lemma Joins(n: Node, d: Node, log: seq<Draw>)
    requires NodeOk(n) && NodeOk(d) && IvValid(n.iv) && n.log <= log && NoReuse(n.log) && UpTo(n.log, TxIv(n.iv)) && TxIv(d.iv) > TxIv(n.iv)
    requires NoReuse(log[|n.log|..]) && LogLegit(d, log[|n.log|..])
    requires NoneEndangered(n) && forall t :: StoredMaySend(d, t) ==> StoredMaySend(n, t)
    ensures FramesFresh(log)
  {
    hide StoredMaySend;
    var k := |n.log|;
    forall i, j | 0 <= i < j < |log| && log[i].use.OnAir? && log[j].use.OnAir? && SameNonce(log[i], log[j])
      ensures log[i].sqn >= SEQ_MAX
    {
      if j < k {
        assert n.log[i] == log[i] && n.log[j] == log[j];
      } else if i >= k {
        assert log[k..][i - k] == log[i] && log[k..][j - k] == log[j];
      } else {
        assert n.log[i] == log[i] && FrameLegit(d, log[k..][j - k]);
        var q :| StoredKey(d, log[j].src, log[j].iv, q) && InWindow(log[j].sqn, q);
        var t :| StoredMaySend(d, t) && t.ctx.src == log[j].src && t.ctx.iv == log[j].iv && t.ctx.seqAuth == q;
        assert InReach(n.log[i], t) || log[i].sqn >= SEQ_MAX;
        assert !Endangered(n.log, t);
      }
    }
  }

  // ---------- and otherwise ----------

  /** Segment j or a later one has not been acknowledged. */
  predicate HasMissing(t: TxTask, i: nat) { exists k :: i <= k < TaskCount(t) && k !in t.blockAck }

  /** A task that has a segment to send, and whose counter stands at the number of a frame in its reach, repeats it. */
  lemma {:induction false} SendingRepeatsFrame(n: Node, s: nat, i: nat, x: nat)
    requires Good(n) && s < |n.tasks| && TaskGood(n, n.tasks[s]) && HasMissing(n.tasks[s], i)
    requires x < |n.log| && InReach(n.log[x], n.tasks[s]) && Next(n, n.tasks[s].ctx.src) == n.log[x].sqn
    ensures !FramesFresh(SendFrom(n, s, i).node.log)
    decreases TaskCount(n.tasks[s]) - i
  {
    hide SegPdu, Good, TaskGood, InReach, SendOne;
    var t := n.tasks[s];
    if i in t.blockAck {
      SendingRepeatsFrame(n, s, i + 1, x);
    } else {
      FrameRepeated(n, s, i, x);
      var m := SendOne(n, s, i).node;
      GoodTraced(n);
      SendOneTraced(n, s, i);
      SendFromTraced(m, s, i + 1);
      FramesStayReused(m.log, SendFrom(m, s, i + 1).node.log);
    }
  }

  lemma GoodTraced(n: Node)
    requires Good(n)
    ensures Traced(n.log) && CountersOk(n)
  {
  }

  lemma FrameRepeated(n: Node, s: nat, i: nat, x: nat)
    requires s < |n.tasks| && i < TaskCount(n.tasks[s]) && x < |n.log| && InReach(n.log[x], n.tasks[s])
    requires Next(n, n.tasks[s].ctx.src) == n.log[x].sqn
    ensures SendOne(n, s, i).ok && !FramesFresh(SendOne(n, s, i).node.log)
  {
    hide SegPdu;
    var m := SendOne(n, s, i).node;
    assert m.log[x] == n.log[x] && SameNonce(m.log[x], m.log[|n.log|]);
  }

  lemma TimerRepeatsFrame(n: Node, s: nat, x: nat)
    requires Ok(n) && s in n.active && !Exhausted(n, n.tasks[s]) && HasMissing(n.tasks[s], 0)
    requires x < |n.log| && InReach(n.log[x], n.tasks[s]) && Next(n, n.tasks[s].ctx.src) == n.log[x].sqn
    ensures !FramesFresh(Timeout(n, s).log)
  {
    var t := Retried(n.tasks[s]);
    var k := FirstIndex(n.active, s);
    assert TaskGood(n, n.tasks[n.active[k]]);
    WithTaskGood(n, s, t);
    WithTaskSched(n, s, t);
    var m := WithTask(n, s, t);
    hide Finish, Sched;
    assert HasMissing(t, 0);
    SendingRepeatsFrame(m, s, 0, x);
    SentGood(m, s);
    var r := SendFrom(m, s, 0).node;
    if !InWindow(r.tasks[s].ctx.sqn, r.tasks[s].ctx.seqAuth) {
      FinishGood(r, s);
      FramesStayReused(r.log, Finish(r, s).log);
    }
  }

  lemma StartRepeatsFrame(n: Node, s: nat, x: nat)
    requires Good(n) && s < |n.tasks| && TaskGood(n, n.tasks[s]) && n.tasks[s].blockAck == {}
    requires x < |n.log| && InReach(n.log[x], n.tasks[s]) && Next(n, n.tasks[s].ctx.src) == n.log[x].sqn
    ensures !FramesFresh(StartTask(n, s).log)
  {
    ActivateGood(n, s);
    var a := Activate(n, s);
    assert HasMissing(a.tasks[s], 0) by { assert 0 !in a.tasks[s].blockAck; }
    SendingRepeatsFrame(a, s, 0, x);
    SentGood(a, s);
    var sent := SendFrom(a, s, 0);
    if !sent.ok {
      assert sent.node.active[|n.active|] == s;
      FinishGood(sent.node, s);
      FramesStayReused(sent.node.log, Finish(sent.node, s).log);
    }
  }

  lemma FinishRepeatsFrame(n: Node, s: nat, k: nat, x: nat)
    requires Ok(n) && s in n.active && k == FirstRunnable(Release(n, s), 0) && k < |n.pending|
    requires var p := n.tasks[n.pending[k]]; x < |n.log| && InReach(n.log[x], p) && Next(n, p.ctx.src) == n.log[x].sqn
    ensures !FramesFresh(Finish(n, s).log)
  {
    hide StartTask, Finish, Good, Sched;
    SlotInPool(n, s);
    FinishStarts(n, s, k);
    ReleaseGood(n, s);
    TakeStartRepeatsFrame(Release(n, s), k, x);
  }

  lemma TakeStartRepeatsFrame(n: Node, k: nat, x: nat)
    requires Good(n) && k < |n.pending|
    requires var p := n.tasks[n.pending[k]]; x < |n.log| && InReach(n.log[x], p) && Next(n, p.ctx.src) == n.log[x].sqn
    ensures NodeOk(TakePending(n, k)) && !FramesFresh(StartTask(TakePending(n, k), n.pending[k]).log)
  {
    TakeGood(n, k);
    StartRepeatsFrame(TakePending(n, k), n.pending[k], x);
  }

  /** Advance the counter of src to the number of frame x. */
  lemma RaiseTo(n: Node, src: nat, x: nat) returns (es: seq<Step>)
    requires Ok(n) && x < |n.log| && OwnSource(n, src) && Next(n, src) <= n.log[x].sqn < SEQ_MAX
    ensures Quiet(es) && Legal(n, es)
    ensures var r := Exec(n, es);
            && Ok(r) && r == n.(counters := r.counters, log := r.log) && Next(r, src) == n.log[x].sqn
            && x < |r.log| && r.log[x] == n.log[x]
  {
    es := RaiseCounter(n, src, n.log[x].sqn - Next(n, src));
    RunGood(n, es);
  }

  lemma TimerRun(n: Node, s: nat, x: nat) returns (es: seq<Step>)
    requires Ok(n) && s in n.active && !Exhausted(n, n.tasks[s]) && HasMissing(n.tasks[s], 0)
    requires x < |n.log| && InReach(n.log[x], n.tasks[s]) && OwnSource(n, n.tasks[s].ctx.src)
    requires Next(n, n.tasks[s].ctx.src) <= n.log[x].sqn
    ensures Quiet(es) && Legal(n, es) && !FramesFresh(Exec(n, es).log)
  {
    var up := RaiseTo(n, n.tasks[s].ctx.src, x);
    var r := Exec(n, up);
    hide Good, Sched, Do, Finish;
    TimerRepeatsFrame(r, s, x);
    OneMore(n, up, TimerFires(s));
    es := up + [TimerFires(s)];
    assert Do(r, TimerFires(s)) == Timeout(r, s) by { DoTimer(r, s); }
  }

  lemma DoTimer(n: Node, s: nat)
    requires NodeOk(n) && IvValid(n.iv) && s in n.active
    ensures Do(n, TimerFires(s)) == Timeout(n, s)
  {
  }

  lemma CancelRun(n: Node, s: nat, k: nat, x: nat) returns (es: seq<Step>)
    requires Ok(n) && s in n.active && AckedSlot(n, SeqZero(n.tasks[s].ctx.seqAuth), 0) == Some(s)
    requires k == FirstRunnable(Release(n, s), 0) && k < |n.pending|
    requires var p := n.tasks[n.pending[k]];
             x < |n.log| && InReach(n.log[x], p) && OwnSource(n, p.ctx.src) && Next(n, p.ctx.src) <= n.log[x].sqn
    ensures Quiet(es) && Legal(n, es) && !FramesFresh(Exec(n, es).log)
  {
    var z := SeqZero(n.tasks[s].ctx.seqAuth);
    var up := RaiseTo(n, n.tasks[n.pending[k]].ctx.src, x);
    var r := Exec(n, up);
    SameSlot(n, r, z, 0);
    SameRunnable(Release(n, s), Release(r, s), 0);
    hide Good, Sched, Do, StartTask;
    FinishRepeatsFrame(r, s, k, x);
    OneMore(n, up, AckArrives(z, {}));
    es := up + [AckArrives(z, {})];
    assert Do(r, AckArrives(z, {})) == Finish(r, s) by { DoCancel(r, s); }
  }

  lemma DoCancel(n: Node, s: nat)
    requires NodeOk(n) && IvValid(n.iv) && s in n.active && AckedSlot(n, SeqZero(n.tasks[s].ctx.seqAuth), 0) == Some(s)
    ensures Do(n, AckArrives(SeqZero(n.tasks[s].ctx.seqAuth), {})) == Finish(n, s)
  {
    hide Finish;
  }

  /** Every active message can be acknowledged and has something left to send, and no destination has two messages
      waiting. */
  ghost predicate Plain(n: Node)
    requires NodeOk(n)
  {
    && (forall k :: 0 <= k < |n.active| ==>
          AckedSlot(n, SeqZero(n.tasks[n.active[k]].ctx.seqAuth), 0) == Some(n.active[k]) && HasMissing(n.tasks[n.active[k]], 0))
    && forall i, j :: 0 <= i < |n.pending| && 0 <= j < |n.pending| && Dst(n, n.pending[i]) == Dst(n, n.pending[j]) ==> i == j
  }

  /** The active message that pending message w waits behind; cancelling it starts w. */
  lemma WaitsBehind(n: Node, w: nat) returns (s: nat)
    requires Sched(n) && Plain(n) && w < |n.pending|
    ensures s in n.active && NodeOk(Release(n, s)) && FirstRunnable(Release(n, s), 0) == w
    ensures AckedSlot(n, SeqZero(n.tasks[s].ctx.seqAuth), 0) == Some(s)
  {
    var d := Dst(n, n.pending[w]);
    assert DstActive(n, d);
    var a :| 0 <= a < |n.active| && n.tasks[n.active[a]].ctx.dst == d;
    s := n.active[a];
    ReleaseSched(n, s);
    var c := ReleaseCut(n, s);
    var r := Release(n, s);
    CutActive(n, r, c);
    var k := FirstRunnable(r, 0);
    hide FirstRunnable, Plain;
    assert k <= w;
    assert !DstActive(r, Dst(n, n.pending[k]));
    assert DstActive(n, Dst(n, n.pending[k]));
    assert Dst(n, n.pending[k]) == d;
    assert k == w by { PlainPending(n, k, w); }
  }

  lemma PlainPending(n: Node, i: nat, j: nat)
    requires NodeOk(n) && Plain(n) && i < |n.pending| && j < |n.pending| && Dst(n, n.pending[i]) == Dst(n, n.pending[j])
    ensures i == j
  {
  }

  lemma ClearedPlain(n: Node, m: Node)
    requires NodeOk(n) && NodeOk(m) && Plain(n) && m == Cleared(n).(iv := m.iv)
    ensures Plain(m) && forall t :: StoredMaySend(n, t) <==> StoredMaySend(m, t)
  {
    forall k | 0 <= k < |m.active|
      ensures AckedSlot(m, SeqZero(m.tasks[m.active[k]].ctx.seqAuth), 0) == Some(m.active[k])
    {
      SlotCleared(n, m, SeqZero(n.tasks[n.active[k]].ctx.seqAuth), 0);
    }
    assert forall t :: Exhausted(m, t) == Exhausted(n, t);
  }

  lemma {:induction false} SlotCleared(n: Node, m: Node, z: nat, k: nat)
    requires NodeOk(n) && NodeOk(m) && m.tasks == n.tasks && m.active == n.active && k <= |n.active|
    ensures AckedSlot(m, z, k) == AckedSlot(n, z, k)
    decreases |n.active| - k
  {
    if k < |n.active| { SlotCleared(n, m, z, k + 1); }
  }

  /** An endangered message does repeat a frame in some continuation without further IV messages. */
  lemma EndangeredRepeats(m: Node, t: TxTask) returns (es: seq<Step>)
    requires Ok(m) && Plain(m) && StoredMaySend(m, t) && Endangered(m.log, t)
    requires forall i :: 0 <= i < |m.counters| ==> m.counters[i] == 0
    ensures Quiet(es) && Legal(m, es) && !FramesFresh(Exec(m, es).log)
  {
    var x :| 0 <= x < |m.log| && InReach(m.log[x], t);
    hide InReach, Endangered, Ok, Plain, Exhausted;
    if k :| 0 <= k < |m.pending| && m.tasks[m.pending[k]] == t {
      es := PendingRepeats(m, k, x);
    } else {
      var k :| 0 <= k < |m.active| && m.tasks[m.active[k]] == t && !Exhausted(m, t);
      es := ActiveRepeats(m, k, x);
    }
  }

  lemma PendingRepeats(m: Node, k: nat, x: nat) returns (es: seq<Step>)
    requires Ok(m) && Plain(m) && k < |m.pending| && x < |m.log| && InReach(m.log[x], m.tasks[m.pending[k]])
    requires forall i :: 0 <= i < |m.counters| ==> m.counters[i] == 0
    ensures Quiet(es) && Legal(m, es) && !FramesFresh(Exec(m, es).log)
  {
    assert TaskGood(m, m.tasks[m.pending[k]]);
    hide Good, Plain;
    var s := WaitsBehind(m, k);
    hide Sched;
    es := CancelRun(m, s, k, x);
  }

  lemma ActiveRepeats(m: Node, k: nat, x: nat) returns (es: seq<Step>)
    requires Ok(m) && Plain(m) && k < |m.active| && x < |m.log| && InReach(m.log[x], m.tasks[m.active[k]])
    requires !Exhausted(m, m.tasks[m.active[k]]) && forall i :: 0 <= i < |m.counters| ==> m.counters[i] == 0
    ensures Quiet(es) && Legal(m, es) && !FramesFresh(Exec(m, es).log)
  {
    assert TaskGood(m, m.tasks[m.active[k]]);
    assert HasMissing(m.tasks[m.active[k]], 0);
    hide Good, Sched;
    es := TimerRun(m, m.active[k], x);
  }

  /** The exact condition. From a state that any guarded run leads to, with plain tasks, take an IV recovery that
      clears the counters. No network nonce is repeated in any guarded continuation if and only if no frame sent so
      far, under the source and IV index of a stored message that may still send, has a number in that message's
      sequence window. */
  lemma AirSafeIffNoneEndangered(n: Node, e: Step)
    requires ClearingRecovery(n, e) && Plain(n)
    ensures IvValid(Do(n, e).iv)
    ensures (forall es | Legal(Do(n, e), es) && Guarded(Do(n, e), es) :: FramesFresh(Exec(Do(n, e), es).log)) <==> NoneEndangered(n)
  {
    DetachedFresh(n, e);
    var m := Do(n, e);
    assert IvValid(m.iv) && m == Cleared(n).(iv := m.iv);
    hide Good, Sched, Do, Fresh, Enabled;
    if NoneEndangered(n) {
      forall es | Legal(m, es) && Guarded(m, es) ensures FramesFresh(Exec(m, es).log) { RecoverySafeOnAir(n, e, es); }
    } else {
      ClearedPlain(n, m);
      var t :| StoredMaySend(n, t) && Endangered(n.log, t);
      var es := EndangeredRepeats(m, t);
      QuietGuarded(m, es);
    }
  }
}
